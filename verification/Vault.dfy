/** The passphrase lock (internal/app/lock.go, vault.go,
    vaultlock.go): putting it on, changing it and taking it off reseals every
    secret one write at a time, and the process may stop after any of them.

    Cryptography is ideal here: a key is its passphrase and salt, a verifier
    recognises exactly one key, and what is sealed opens with its key alone. */
module Vault {
  import opened Wrappers

  datatype Error =
    | NotFound | Locked | WrongPassphrase | NoPassphrase | NoSalt | Garbled | WriteFailed | Portable
    | LockedOut(name: Name, why: Error) | Left(names: seq<Name>)
  datatype Result<T> = Ok(value: T) | Err(error: Error)

  /** A secret's place: its connection and its key there. */
  datatype Name = Name(connection: string, key: string)

  datatype Key = Key(pass: string, salt: seq<int>)
  datatype VaultLock = VaultLock(salt: seq<int>, verifier: Key)

  /** What a keychain entry holds. A text may look sealed without being so. */
  datatype Stored = Raw(text: string) | Sealed(key: Key, plain: string)

  /** Everything that outlives the process. */
  datatype Disk = Disk(setting: Option<VaultLock>, entries: map<Name, Stored>)

  const SEAL_PREFIX := "ikigai-sealed-v1:"

  predicate LooksSealed(text: string) { SEAL_PREFIX <= text }

  predicate On(setting: Option<VaultLock>) { setting.Some? && |setting.value.salt| > 0 }

  function Unsealed(stored: Stored, key: Option<Key>): Result<string> {
    match stored
    case Raw(text) => if !LooksSealed(text) then Ok(text) else Err(if key.None? then Locked else Garbled)
    case Sealed(k, plain) => if key.None? then Err(Locked) else if key.value == k then Ok(plain) else Err(Garbled)
  }

  // ----- what a disk says to somebody who starts the program and types a passphrase

  /** The key the passphrase opens the lock with: none when there is no lock. */
  function Opened(setting: Option<VaultLock>, pass: string): Result<Option<Key>> {
    if !On(setting) then Ok(None)
    else if Key(pass, setting.value.salt) != setting.value.verifier then Err(WrongPassphrase)
    else Ok(Some(Key(pass, setting.value.salt)))
  }

  function ReadAfter(d: Disk, pass: string, name: Name): Result<string> {
    var key := Opened(d.setting, pass);
    if key.Err? then Err(key.error)
    else if name !in d.entries then Err(NotFound)
    else Unsealed(d.entries[name], key.value)
  }

  // ----- a run of writes

  function Form(value: string, key: Option<Key>): Stored {
    match key case None => Raw(value) case Some(k) => Sealed(k, value)
  }

  /** Some of what is held has been written back under `key`, and nothing else touched. */
  predicate PartWritten(before: map<Name, Stored>, after: map<Name, Stored>, held: map<Name, string>, key: Option<Key>) {
    && before.Keys <= after.Keys <= before.Keys + held.Keys
    && forall n :: n in after
         ==> (n in before && after[n] == before[n]) || (n in held && after[n] == Form(held[n], key))
  }

  /** All of it has. */
  predicate AllWritten(before: map<Name, Stored>, after: map<Name, Stored>, held: map<Name, string>, key: Option<Key>) {
    PartWritten(before, after, held, key) && Written(after, held, {}, key)
  }

  /** All of it but what is left to write. */
  predicate Written(entries: map<Name, Stored>, held: map<Name, string>, rest: set<Name>, key: Option<Key>) {
    forall n :: n in held && n !in rest ==> n in entries && entries[n] == Form(held[n], key)
  }

  /** A run of writes from `before`: under `setting`, each disk holds some of
      what is held written back under `key` and is otherwise as it was. */
  ghost predicate Grew(was: seq<Disk>, trace: seq<Disk>, before: Disk, setting: Option<VaultLock>, held: map<Name, string>, key: Option<Key>) {
    && was <= trace
    && forall i :: |was| <= i < |trace|
         ==> trace[i].setting == setting && PartWritten(before.entries, trace[i].entries, held, key)
  }

  /** A run of rewriting, so far. */
  ghost predicate Going(was: seq<Disk>, before: Disk, trace: seq<Disk>, now: Disk, held: map<Name, string>, key: Option<Key>) {
    && Grew(was, trace, before, before.setting, held, key)
    && now.setting == before.setting && PartWritten(before.entries, now.entries, held, key)
  }

  /** A run that took the lock off: everything in the open, and then no setting. */
  ghost predicate Opens(was: seq<Disk>, trace: seq<Disk>, before: Disk, held: map<Name, string>, persistent: bool) {
    && |trace| > |was|
    && Grew(was, trace[..|trace| - 1], before, before.setting, held, None)
    && trace[|trace| - 1].setting == None
    && (persistent ==> AllWritten(before.entries, trace[|trace| - 1].entries, held, None))
  }

  /** What is listed and there, as this key reads it. */
  ghost predicate HeldFrom(held: map<Name, string>, list: seq<Connection>, d: Disk, key: Option<Key>) {
    && (forall n :: n in held <==> Listed(list, n) && n in d.entries)
    && forall n :: n in held ==> Unsealed(d.entries[n], key) == Ok(held[n])
  }

  /** Whatever is listed and one passphrase reads from one disk, another reads
      from another, as it was. */
  ghost predicate Keeps(list: seq<Connection>, before: Disk, was: string, after: Disk, pass: string) {
    forall n :: Listed(list, n) && ReadAfter(before, was, n).Ok? ==> ReadAfter(after, pass, n) == ReadAfter(before, was, n)
  }

  /** A lock put on an unlocked vault: wherever the writing stopped, the
      passphrase reads every secret there was as it was, but for one that was
      typed in anew for the session and so written back in the old one's place. */
  lemma LockingReads(before: Disk, after: Disk, held: map<Name, string>, was: string, pass: string, salt: seq<int>, n: Name, v: string)
    requires |salt| > 0 && !On(before.setting)
    requires ReadAfter(before, was, n) == Ok(v)
    requires after.setting == Some(VaultLock(salt, Key(pass, salt)))
    requires PartWritten(before.entries, after.entries, held, Some(Key(pass, salt)))
    ensures n in after.entries
    ensures ReadAfter(after, pass, n) == Ok(v) <==> n !in held || held[n] == v || after.entries[n] == before.entries[n]
  {
    assert n in after.entries.Keys;
  }

  /** A lock being taken off: while the setting stands, the passphrase still
      reads what it read before, except a text written back in the open that
      looks sealed. */
  lemma UnlockingReads(before: Disk, after: Disk, held: map<Name, string>, pass: string, n: Name, v: string)
    requires On(before.setting) && after.setting == before.setting
    requires ReadAfter(before, pass, n) == Ok(v) && n in held && held[n] == v
    requires PartWritten(before.entries, after.entries, held, None)
    ensures ReadAfter(after, pass, n) == Ok(v) <==> after.entries[n] == before.entries[n] || !LooksSealed(v)
  {
    assert n in after.entries.Keys;
  }

  /** With the setting gone too, a secret reads as it was exactly when it does
      not look sealed. */
  lemma UnlockedReads(before: Disk, after: Disk, held: map<Name, string>, pass: string, n: Name, v: string)
    requires On(before.setting) && !On(after.setting)
    requires n in held && held[n] == v
    requires AllWritten(before.entries, after.entries, held, None)
    ensures ReadAfter(after, pass, n) == Ok(v) <==> !LooksSealed(v)
  {
  }

  /** A passphrase being changed: a secret reads as it was exactly when its entry
      is no longer sealed under the old key. */
  lemma ChangingReads(before: Disk, after: Disk, held: map<Name, string>, was: string, pass: string, salt: seq<int>, n: Name, v: string)
    requires |salt| > 0 && On(before.setting)
    requires ReadAfter(before, was, n) == Ok(v) && n in held && held[n] == v
    requires after.setting == Some(VaultLock(salt, Key(pass, salt)))
    requires PartWritten(before.entries, after.entries, held, Some(Key(pass, salt)))
    ensures ReadAfter(after, pass, n) == Ok(v)
      <==> !(after.entries[n].Sealed? && after.entries[n].key == before.setting.value.verifier != Key(pass, salt))
  {
    assert n in after.entries.Keys;
  }

  /** How long a lock's salt is. */
  const SALT_LENGTH := 16

  /** Stopped after the setting and before the secret, a change of passphrase
      leaves a secret no passphrase reads, unless the new salt and passphrase
      happen to be the old ones. */
  lemma ChangeStopped(n: Name, v: string, was: string, salt: seq<int>, pass: string, next: seq<int>)
    returns (before: Disk, after: Disk, held: map<Name, string>)
    requires |salt| == |next| == SALT_LENGTH
    ensures ReadAfter(before, was, n) == Ok(v) && held == map[n := v]
    ensures before.setting == Some(VaultLock(salt, Key(was, salt)))
    ensures after.setting == Some(VaultLock(next, Key(pass, next)))
    ensures PartWritten(before.entries, after.entries, held, Some(Key(pass, next)))
    ensures (forall any :: ReadAfter(after, any, n).Err?) <==> pass != was || next != salt
  {
    var k := Key(was, salt);
    before := Disk(Some(VaultLock(salt, k)), map[n := Sealed(k, v)]);
    held := map[n := v];
    after := before.(setting := Some(VaultLock(next, Key(pass, next))));
    assert pass == was && next == salt ==> ReadAfter(after, pass, n) == Ok(v);
  }

  lemma LockingKeeps(list: seq<Connection>, before: Disk, after: Disk, held: map<Name, string>, was: string, pass: string, salt: seq<int>)
    requires |salt| > 0 && !On(before.setting) && HeldFrom(held, list, before, None)
    requires after.setting == Some(VaultLock(salt, Key(pass, salt)))
    requires PartWritten(before.entries, after.entries, held, Some(Key(pass, salt)))
    ensures Keeps(list, before, was, after, pass)
  {
    forall n | Listed(list, n) && ReadAfter(before, was, n).Ok? ensures ReadAfter(after, pass, n) == ReadAfter(before, was, n) {
      LockingReads(before, after, held, was, pass, salt, n, ReadAfter(before, was, n).value);
    }
  }

  /** Changed all the way, every secret reads with the new passphrase. */
  lemma ChangedRun(list: seq<Connection>, before: Disk, after: Disk, held: map<Name, string>, pass: string, salt: seq<int>, key: Option<Key>)
    requires |salt| > 0 && HeldFrom(held, list, before, key)
    requires if On(before.setting) then key == Some(before.setting.value.verifier) else key == None
    requires after.setting == Some(VaultLock(salt, Key(pass, salt)))
    requires AllWritten(before.entries, after.entries, held, Some(Key(pass, salt)))
    ensures forall was :: Opened(before.setting, was).Ok? ==> Keeps(list, before, was, after, pass)
  {
  }

  lemma UnlockingKeeps(list: seq<Connection>, before: Disk, after: Disk, held: map<Name, string>, pass: string, key: Key)
    requires Opened(before.setting, pass) == Ok(Some(key)) && HeldFrom(held, list, before, Some(key))
    requires
      || (after.setting == before.setting && PartWritten(before.entries, after.entries, held, None))
      || (after.setting == None && AllWritten(before.entries, after.entries, held, None))
    requires forall n :: n in held ==> !LooksSealed(held[n])
    ensures Keeps(list, before, pass, after, pass)
  {
    forall n | Listed(list, n) && ReadAfter(before, pass, n).Ok? ensures ReadAfter(after, pass, n) == ReadAfter(before, pass, n) {
      if after.setting == None { UnlockedReads(before, after, held, pass, n, held[n]); }
      else { UnlockingReads(before, after, held, pass, n, held[n]); }
    }
  }

  lemma NothingWritten(before: map<Name, Stored>, held: map<Name, string>, key: Option<Key>)
    ensures PartWritten(before, before, held, key) && Written(before, held, held.Keys, key)
  {
  }

  /** A setting saved and then everything rewritten under it. */
  lemma GrewAfter(was: seq<Disk>, before: Disk, setting: Option<VaultLock>, trace: seq<Disk>, held: map<Name, string>, key: Option<Key>)
    requires Grew(was + [before.(setting := setting)], trace, before.(setting := setting), setting, held, key)
    ensures Grew(was, trace, before, setting, held, key)
    ensures |trace| > |was|
  {
    NothingWritten(before.entries, held, key);
    assert trace[|was|] == (was + [before.(setting := setting)])[|was|];
  }

  /** Locking for the first time keeps every listed secret readable at every step. */
  lemma LockingRun(list: seq<Connection>, was: seq<Disk>, before: Disk, trace: seq<Disk>, held: map<Name, string>, pass: string, salt: seq<int>)
    requires |salt| > 0 && !On(before.setting) && HeldFrom(held, list, before, None)
    requires Grew(was, trace, before, Some(VaultLock(salt, Key(pass, salt))), held, Some(Key(pass, salt)))
    ensures forall i :: |was| <= i < |trace| ==> Keeps(list, before, "", trace[i], pass)
  {
    forall i | |was| <= i < |trace| ensures Keeps(list, before, "", trace[i], pass) {
      LockingKeeps(list, before, trace[i], held, "", pass, salt);
    }
  }

  /** So does taking the lock off, when no secret looks sealed. */
  lemma UnlockingRun(list: seq<Connection>, was: seq<Disk>, before: Disk, trace: seq<Disk>, held: map<Name, string>, pass: string)
    requires On(before.setting) && Opened(before.setting, pass).Ok? && HeldFrom(held, list, before, Opened(before.setting, pass).value)
    requires Grew(was, trace, before, before.setting, held, None)
    requires forall n :: n in held ==> !LooksSealed(held[n])
    ensures forall i :: |was| <= i < |trace| ==> Keeps(list, before, pass, trace[i], pass)
  {
    forall i | |was| <= i < |trace| ensures Keeps(list, before, pass, trace[i], pass) {
      UnlockingKeeps(list, before, trace[i], held, pass, Opened(before.setting, pass).value.value);
    }
  }

  /** A session with what is held typed in, but for what is left. */
  function Typed(session: map<Name, string>, held: map<Name, string>, rest: set<Name>): map<Name, string> {
    session + (held - rest)
  }

  lemma TypedEnds(session: map<Name, string>, held: map<Name, string>)
    ensures Typed(session, held, held.Keys) == session && Typed(session, held, {}) == session + held
  {
    assert held - {} == held;
  }

  lemma TypedMore(session: map<Name, string>, held: map<Name, string>, rest: set<Name>, n: Name)
    requires n in rest && n in held
    ensures Typed(session, held, rest - {n}) == Typed(session, held, rest)[n := held[n]]
    ensures rest - {n} + {n} == rest
  {
  }

  lemma GrewNone(was: seq<Disk>, before: Disk, held: map<Name, string>, key: Option<Key>)
    ensures Grew(was, was, before, before.setting, held, key)
  {
  }

  lemma GrewNothing(was: seq<Disk>, before: Disk)
    ensures forall setting, held, key :: Grew(was, was, before, setting, held, key)
  {
  }

  lemma GrewMore(was: seq<Disk>, before: Disk, held: map<Name, string>, key: Option<Key>, trace: seq<Disk>, next: Disk)
    requires Grew(was, trace, before, before.setting, held, key)
    requires next.setting == before.setting && PartWritten(before.entries, next.entries, held, key)
    ensures Grew(was, trace + [next], before, before.setting, held, key)
  {
  }

  lemma PartMore(before: map<Name, Stored>, after: map<Name, Stored>, held: map<Name, string>, key: Option<Key>, n: Name, rest: set<Name>)
    requires PartWritten(before, after, held, key) && n in held
    ensures PartWritten(before, after[n := Form(held[n], key)], held, key)
    ensures Written(after, held, rest + {n}, key) ==> Written(after[n := Form(held[n], key)], held, rest, key)
  {
    var more := after[n := Form(held[n], key)];
    assert more.Keys == after.Keys + {n};
  }

  // ----- the objects

  /** What is on disk, settings and secrets both, and all it has ever held. A
      write may fail, and then changes nothing. */
  class Machine {
    var disk: Disk
    ghost var trace: seq<Disk>

    ghost predicate Valid()
      reads this
    {
      |trace| > 0 && trace[|trace| - 1] == disk
    }

    constructor (disk: Disk)
      ensures Valid() && this.disk == disk && trace == [disk]
    {
      this.disk, trace := disk, [disk];
    }

    method Put(n: Name, s: Stored) returns (ok: bool)
      requires Valid()
      modifies this
      ensures Valid()
      ensures disk == if ok then old(disk).(entries := old(disk).entries[n := s]) else old(disk)
      ensures trace == if ok then old(trace) + [disk] else old(trace)
    {
      ok := *;
      if ok {
        disk := disk.(entries := disk.entries[n := s]);
        trace := trace + [disk];
      }
    }

    method SaveSetting(setting: Option<VaultLock>) returns (ok: bool)
      requires Valid()
      modifies this
      ensures Valid()
      ensures disk == if ok then old(disk).(setting := setting) else old(disk)
      ensures trace == if ok then old(trace) + [disk] else old(trace)
    {
      ok := *;
      if ok {
        disk := disk.(setting := setting);
        trace := trace + [disk];
      }
    }
  }

  /** The passphrase gate. Its setting is fixed when it is made. */
  class Lock {
    const setting: Option<VaultLock>
    var key: Option<Key>

    ghost predicate Valid()
      reads this
    {
      key.Some? ==> On(setting) && key.value == setting.value.verifier && key.value.salt == setting.value.salt
    }

    constructor (setting: Option<VaultLock>)
      ensures this.setting == setting && key == None && Valid()
    {
      this.setting, key := setting, None;
    }

    predicate Open()
      reads this
    {
      On(setting) ==> key.Some?
    }

    /** Only the right passphrase changes anything. */
    method Unlock(pass: string) returns (r: Result<()>)
      requires Valid()
      modifies this
      ensures Valid()
      ensures match Opened(setting, pass)
              case Err(e) => r == Err(e) && key == old(key)
              case Ok(k) => r.Ok? && key == if On(setting) then k else old(key)
    {
      if !On(setting) { return Ok(()); }
      var k := Key(pass, setting.value.salt);
      if k != setting.value.verifier { return Err(WrongPassphrase); }
      key := Some(k);
      return Ok(());
    }

    method Close()
      modifies this
      ensures Valid() && key == None
    {
      key := None;
    }

    /** Sealing may also fail for want of randomness. */
    method Seal(plain: string) returns (r: Result<Stored>)
      requires Valid()
      ensures r.Ok? ==> r.value == Form(plain, key)
      ensures On(setting) && key.None? ==> r == Err(Locked)
      ensures !On(setting) ==> r.Ok?
    {
      if !On(setting) { return Ok(Raw(plain)); }
      if key.None? { return Err(Locked); }
      var random: bool := *;
      if !random { return Err(NoSalt); }
      return Ok(Sealed(key.value, plain));
    }
  }

  class Vault {
    const machine: Machine
    const persistent: bool
    const portable: bool
    var session: map<Name, string>
    var lock: Lock

    constructor (machine: Machine, persistent: bool, portable: bool)
      ensures this.machine == machine && this.persistent == persistent && this.portable == portable
      ensures session == map[] && fresh(lock) && lock.setting == None && lock.key == None
    {
      this.machine, this.persistent, this.portable := machine, persistent, portable;
      session := map[];
      lock := new Lock(None);
    }

    predicate Persistent()
      reads this, lock
    {
      persistent && (portable ==> On(lock.setting))
    }

    function Get(n: Name): Result<string>
      reads this, lock, machine
    {
      GetWith(n, lock.key)
    }

    /** What the vault answers while its lock holds this key. What the
        session overrides comes first, whatever the key. */
    function GetWith(n: Name, key: Option<Key>): Result<string>
      reads this, lock, machine
    {
      if n in session then Ok(session[n])
      else if !Persistent() then Err(NotFound)
      else if On(lock.setting) && key.None? then Err(Locked)
      else if n !in machine.disk.entries then Err(NotFound)
      else Unsealed(machine.disk.entries[n], key)
    }

    /** Exactly what a vault hands over: what was typed in for the session, or,
        kept and not locked, an entry in the open or sealed under its key. */
    lemma HandsOver(n: Name, v: string)
      requires lock.Valid()
      ensures Get(n) == Ok(v) <==>
        || (n in session && session[n] == v)
        || (n !in session && Persistent() && (On(lock.setting) ==> lock.key.Some?) && n in machine.disk.entries
            && ((machine.disk.entries[n] == Raw(v) && !LooksSealed(v))
              || (lock.key.Some? && machine.disk.entries[n] == Sealed(lock.key.value, v))))
    {
    }

    /** A locked vault says so of every name, whatever is on the disk: an entry
        never yet sealed too. */
    lemma LockedSaysSo(n: Name)
      requires Persistent() && On(lock.setting) && lock.key.None? && n !in session
      ensures Get(n) == Err(Locked)
    {
    }

    /** Opened with a passphrase, a vault in step reads its disk as that passphrase does. */
    lemma ReadsItsDisk(pass: string, n: Name)
      requires InStep() && lock.Valid() && Opened(lock.setting, pass) == Ok(lock.key)
      ensures Get(n) == ReadAfter(machine.disk, pass, n)
    {
    }

    /** The setup the safety of a run is about: secrets kept in the machine's
        keychain, none typed in over one of them, and the lock the settings say. */
    predicate InStep()
      reads this, lock, machine
    {
      persistent && !portable && session == map[] && lock.setting == machine.disk.setting
    }

    method Set(n: Name, value: string) returns (ok: bool)
      requires machine.Valid() && lock.Valid()
      modifies this`session, machine
      ensures machine.Valid()
      ensures Persistent() == old(Persistent())
      ensures !Persistent() ==> ok && session == old(session)[n := value] && machine.trace == old(machine.trace)
      ensures Persistent() ==> session == old(session)
      ensures Persistent() && ok ==> machine.trace == old(machine.trace) + [machine.disk]
      ensures Persistent() && ok ==> machine.disk == old(machine.disk).(entries := old(machine.disk).entries[n := Form(value, lock.key)])
      ensures !ok ==> machine.trace == old(machine.trace)
    {
      if !Persistent() {
        session := session[n := value];
        return true;
      }
      var sealed := lock.Seal(value);
      if sealed.Err? { return false; }
      ok := machine.Put(n, sealed.value);
    }
  }

  /** The program started: nothing typed in, and the lock the settings say. */
  method Start(machine: Machine) returns (vault: Vault)
    ensures vault.machine == machine && vault.InStep() && vault.lock.Valid() && fresh(vault.lock)
    ensures
      if machine.disk.setting.Some? && machine.disk.setting.value.salt != [] then forall n :: vault.Get(n) == Err(Locked)
      else forall n, v :: vault.Get(n) == Ok(v) <==> n in machine.disk.entries && machine.disk.entries[n] == Raw(v) && !LooksSealed(v)
  {
    vault := new Vault(machine, true, false);
    vault.lock := new Lock(machine.disk.setting);
  }

  /** Started, opened with a passphrase and asked: what a disk says to somebody
      who does that. */
  method StartAndRead(machine: Machine, pass: string, n: Name) returns (r: Result<string>)
    ensures r == ReadAfter(machine.disk, pass, n)
  {
    var vault := Start(machine);
    var unlocked := vault.lock.Unlock(pass);
    if unlocked.Err? { return Err(unlocked.error); }
    vault.ReadsItsDisk(pass, n);
    return vault.Get(n);
  }

  /** Each connection and the keys of its secrets. */
  datatype Connection = Connection(id: string, secrets: seq<string>)

  predicate Listed(list: seq<Connection>, n: Name) {
    exists c :: c in list && c.id == n.connection && n.key in c.secrets
  }

  /** Everything the lock's three operations do to the disk, told by the disks
      it goes through. */
  class Connections {
    const vault: Vault
    const list: seq<Connection>

    constructor (vault: Vault, list: seq<Connection>)
      ensures this.vault == vault && this.list == list
    {
      this.vault, this.list := vault, list;
    }

    ghost predicate Valid()
      reads this, vault, vault.lock, vault.machine
    {
      vault.machine.Valid() && vault.lock.Valid()
    }

    /** With the right passphrase the vault reads its disk as that passphrase
        does; with a wrong one nothing changes. */
    method UnlockVault(pass: string) returns (r: Result<()>)
      requires Valid()
      modifies vault.lock
      ensures Valid()
      ensures r.Ok? <==> On(vault.lock.setting) ==> vault.lock.setting.value.verifier == Key(pass, vault.lock.setting.value.salt)
      ensures r.Err? ==> r == Err(WrongPassphrase) && forall n :: vault.Get(n) == old(vault.Get(n))
      ensures r.Ok? && vault.InStep() ==> forall n :: vault.Get(n) == ReadAfter(vault.machine.disk, pass, n)
    {
      r := vault.lock.Unlock(pass);
      if r.Ok? && vault.InStep() {
        forall n ensures vault.Get(n) == ReadAfter(vault.machine.disk, pass, n) { vault.ReadsItsDisk(pass, n); }
      }
    }

    /** Shut again, a lock holds back whatever was not typed in for the session. */
    method CloseVault()
      requires Valid()
      modifies vault.lock
      ensures Valid()
      ensures forall n :: n in vault.session ==> vault.Get(n) == Ok(vault.session[n])
      ensures vault.Persistent() && On(vault.lock.setting) ==> forall n :: n !in vault.session ==> vault.Get(n) == Err(Locked)
    {
      vault.lock.Close();
    }

    /** What the vault holds of what is listed, read with this key. */
    ghost predicate IsHeld(held: map<Name, string>, key: Option<Key>)
      reads this, vault, vault.lock, vault.machine
    {
      && (forall n :: n in held <==> Listed(list, n) && vault.GetWith(n, key) != Err(NotFound))
      && forall n :: n in held ==> vault.GetWith(n, key) == Ok(held[n])
    }

    /** In step, what is held is what the disk holds. */
    lemma HeldInStep(held: map<Name, string>, key: Option<Key>)
      requires IsHeld(held, key) && vault.InStep() && (On(vault.lock.setting) ==> key.Some?)
      ensures HeldFrom(held, list, vault.machine.disk, key)
    {
    }

    /** Reads all that is listed. A secret that exists but does not open stops it,
        for nothing could be written back. */
    method HeldSecrets() returns (r: Result<map<Name, string>>)
      ensures r.Ok? ==> IsHeld(r.value, vault.lock.key)
      ensures r.Err? <==> exists n :: Listed(list, n) && vault.Get(n).Err? && vault.Get(n) != Err(NotFound)
    {
      var held: map<Name, string>, i := map[], 0;
      while i < |list|
        invariant i <= |list|
        invariant forall n :: n in held <==> Listed(list[..i], n) && vault.Get(n) != Err(NotFound)
        invariant forall n :: n in held ==> vault.Get(n) == Ok(held[n])
      {
        ghost var sofar := held;
        var c, j := list[i], 0;
        while j < |c.secrets|
          invariant j <= |c.secrets|
          invariant forall n :: n in held <==>
            (Listed(list[..i], n) || (n.connection == c.id && n.key in c.secrets[..j])) && vault.Get(n) != Err(NotFound)
          invariant forall n :: n in held ==> vault.Get(n) == Ok(held[n])
        {
          var n := Name(c.id, c.secrets[j]);
          var s := vault.Get(n);
          if s.Err? && s.error != NotFound {
            assert Listed(list, n);
            return Err(LockedOut(n, s.error));
          }
          assert c.secrets[..j + 1] == c.secrets[..j] + [c.secrets[j]];
          if s.Ok? { held := held[n := s.value]; }
          j := j + 1;
        }
        assert c.secrets[..|c.secrets|] == c.secrets;
        ListedMore(list, i);
        i := i + 1;
      }
      assert list[..|list|] == list;
      return Ok(held);
    }

    /** Writes what is held back under the present lock, in some order, naming what
        failed. */
    method Rewrite(held: map<Name, string>) returns (failed: seq<Name>)
      requires Valid()
      modifies vault`session, vault.machine
      ensures Valid()
      ensures !vault.Persistent() ==> failed == [] && vault.machine.trace == old(vault.machine.trace)
      ensures vault.session == if vault.Persistent() then old(vault.session) else old(vault.session) + held
      ensures Grew(old(vault.machine.trace), vault.machine.trace, old(vault.machine.disk), old(vault.machine.disk).setting, held, vault.lock.key)
      ensures vault.machine.disk.setting == old(vault.machine.disk).setting
      ensures vault.Persistent() && failed == []
        ==> AllWritten(old(vault.machine.disk).entries, vault.machine.disk.entries, held, vault.lock.key)
    {
      hide PartWritten, Written, Form, Grew, On, Listed, Typed, Unsealed;
      TypedEnds(vault.session, held);
      GrewNone(vault.machine.trace, vault.machine.disk, held, vault.lock.key);
      NothingWritten(vault.machine.disk.entries, held, vault.lock.key);
      var rest := held.Keys;
      failed := [];
      ghost var keeps := vault.Persistent();
      while rest != {}
        invariant rest <= held.Keys && Valid() && vault.Persistent() == keeps
        invariant !keeps ==> failed == [] && vault.machine.trace == old(vault.machine.trace)
        invariant vault.session == if keeps then old(vault.session) else Typed(old(vault.session), held, rest)
        invariant Going(old(vault.machine.trace), old(vault.machine.disk), vault.machine.trace, vault.machine.disk, held, vault.lock.key)
        invariant failed == [] && keeps ==> Written(vault.machine.disk.entries, held, rest, vault.lock.key)
        decreases |rest|
      {
        var n :| n in rest;
        TypedMore(old(vault.session), held, rest, n);
        rest := rest - {n};
        var ok := RewriteOne(n, held, rest, old(vault.machine.trace), old(vault.machine.disk));
        if !ok { failed := failed + [n]; }
      }
    }

    method RewriteOne(n: Name, held: map<Name, string>, ghost rest: set<Name>, ghost was: seq<Disk>, ghost before: Disk) returns (ok: bool)
      requires Valid() && n in held
      requires Going(was, before, vault.machine.trace, vault.machine.disk, held, vault.lock.key)
      modifies vault`session, vault.machine
      ensures Valid() && vault.Persistent() == old(vault.Persistent())
      ensures Going(was, before, vault.machine.trace, vault.machine.disk, held, vault.lock.key)
      ensures if vault.Persistent() then vault.session == old(vault.session)
              else ok && vault.session == old(vault.session)[n := held[n]] && vault.machine.trace == old(vault.machine.trace)
      ensures ok && vault.Persistent() && old(Written(vault.machine.disk.entries, held, rest + {n}, vault.lock.key))
        ==> Written(vault.machine.disk.entries, held, rest, vault.lock.key)
    {
      hide PartWritten, Written, Form, Grew, On, Listed, Unsealed;
      PartMore(before.entries, vault.machine.disk.entries, held, vault.lock.key, n, rest);
      ok := vault.Set(n, held[n]);
      if ok && vault.Persistent() {
        GrewMore(was, before, held, vault.lock.key, old(vault.machine.trace), vault.machine.disk);
      }
    }

    /** Locks, or locks anew under another passphrase.
        `salt` is what the random source gave, if anything; `held` is what was
        read before anything was written. */
    method LockVault(pass: string, salt: Option<seq<int>>) returns (r: Result<()>, ghost held: map<Name, string>)
      requires Valid() && (salt.Some? ==> |salt.value| == SALT_LENGTH)
      modifies vault, vault.lock, vault.machine
      ensures Valid()
      ensures pass == "" || !old(vault.lock.Open()) || salt.None? ==> r.Err? && vault.machine.trace == old(vault.machine.trace)
      ensures vault.machine.trace != old(vault.machine.trace) ==> old(IsHeld(held, vault.lock.key))
      ensures salt.Some? ==>
        var key := Key(pass, salt.value);
        && Grew(old(vault.machine.trace), vault.machine.trace, old(vault.machine.disk), Some(VaultLock(salt.value, key)), held, Some(key))
        && (r.Ok? ==> vault.machine.disk.setting == Some(VaultLock(salt.value, key)) && vault.lock.key == Some(key))
        && (r.Ok? && vault.Persistent() ==> AllWritten(old(vault.machine.disk).entries, vault.machine.disk.entries, held, Some(key)))
      ensures old(vault.InStep()) && !old(On(vault.lock.setting)) ==>
        forall i :: |old(vault.machine.trace)| <= i < |vault.machine.trace|
          ==> Keeps(list, old(vault.machine.disk), "", vault.machine.trace[i], pass)
      ensures old(vault.InStep()) && r.Ok? ==>
        forall was :: Opened(old(vault.lock.setting), was).Ok?
          ==> Keeps(list, old(vault.machine.disk), was, vault.machine.disk, pass)
    {
      hide IsHeld, Grew, Keeps, AllWritten, Unsealed;
      held := map[];
      r := Err(NoPassphrase);
      GrewNothing(vault.machine.trace, vault.machine.disk);
      if pass == "" { return; }
      if !vault.lock.Open() { r := Err(Locked); return; }
      var h := HeldSecrets();
      if h.Err? { r := Err(h.error); return; }
      held := h.value;
      GrewNothing(vault.machine.trace, vault.machine.disk);
      if salt.None? { r := Err(NoSalt); return; }
      r := PutLock(pass, salt.value, h.value);
    }

    /** The setting first, then everything sealed under it. */
    method PutLock(pass: string, salt: seq<int>, held: map<Name, string>) returns (r: Result<()>)
      requires Valid() && |salt| > 0 && vault.lock.Open() && IsHeld(held, vault.lock.key)
      modifies vault, vault.machine
      ensures Valid()
      ensures var key := Key(pass, salt);
        && Grew(old(vault.machine.trace), vault.machine.trace, old(vault.machine.disk), Some(VaultLock(salt, key)), held, Some(key))
        && (r.Ok? ==> vault.machine.disk.setting == Some(VaultLock(salt, key)) && vault.lock.key == Some(key))
        && (r.Ok? && vault.Persistent() ==> AllWritten(old(vault.machine.disk).entries, vault.machine.disk.entries, held, Some(key)))
      ensures old(vault.InStep()) && !old(On(vault.lock.setting)) ==>
        forall i :: |old(vault.machine.trace)| <= i < |vault.machine.trace|
          ==> Keeps(list, old(vault.machine.disk), "", vault.machine.trace[i], pass)
      ensures old(vault.InStep()) && r.Ok? ==>
        forall was :: Opened(old(vault.lock.setting), was).Ok?
          ==> Keeps(list, old(vault.machine.disk), was, vault.machine.disk, pass)
    {
      ghost var before, was := vault.machine.disk, vault.machine.trace;
      if vault.InStep() { HeldInStep(held, vault.lock.key); }
      hide IsHeld, Grew, Keeps, AllWritten, Unsealed, HeldFrom;
      GrewNothing(was, before);
      var setting := Some(VaultLock(salt, Key(pass, salt)));
      var lock := new Lock(setting);
      var unlocked := lock.Unlock(pass);
      assert unlocked.Ok?; // the setting was made from this passphrase
      var saved := vault.machine.SaveSetting(setting);
      if !saved { return Err(WriteFailed); }
      vault.lock := lock;
      var failed := Rewrite(held);
      r := if failed == [] then Ok(()) else Err(Left(failed));
      GrewAfter(was, before, setting, vault.machine.trace, held, lock.key);
      if old(vault.InStep()) {
        if !On(before.setting) { LockingRun(list, was, before, vault.machine.trace, held, pass, salt); }
        if r.Ok? { ChangedRun(list, before, vault.machine.disk, held, pass, salt, old(vault.lock.key)); }
      }
    }

    /** Take the lock off, every secret written back in the open first. */
    method RemoveVaultLock(pass: string) returns (r: Result<()>, ghost held: map<Name, string>)
      requires Valid()
      modifies vault, vault.lock, vault.machine
      ensures Valid()
      ensures !old(On(vault.lock.setting)) ==> r.Ok?
      ensures old(On(vault.lock.setting)) && vault.portable ==> r == Err(Portable)
      ensures !old(On(vault.lock.setting)) || vault.portable || Opened(old(vault.lock.setting), pass).Err?
        ==> vault.machine.trace == old(vault.machine.trace)
      ensures vault.machine.trace != old(vault.machine.trace)
        ==> old(IsHeld(held, Opened(vault.lock.setting, pass).value))
      ensures r.Err? ==> Grew(old(vault.machine.trace), vault.machine.trace, old(vault.machine.disk), old(vault.machine.disk).setting, held, None)
      ensures r.Ok? && old(On(vault.lock.setting)) ==>
        Opens(old(vault.machine.trace), vault.machine.trace, old(vault.machine.disk), held, vault.persistent)
      ensures old(vault.InStep()) && old(On(vault.lock.setting)) && (forall n :: n in held ==> !LooksSealed(held[n])) ==>
        forall i :: |old(vault.machine.trace)| <= i < |vault.machine.trace|
          ==> Keeps(list, old(vault.machine.disk), pass, vault.machine.trace[i], pass)
    {
      hide Grew, Keeps, AllWritten, Unsealed, Opens;
      held := map[];
      GrewNothing(vault.machine.trace, vault.machine.disk);
      r := Ok(());
      if !On(vault.lock.setting) { return; }
      if vault.portable { r := Err(Portable); return; }
      var unlocked := vault.lock.Unlock(pass);
      if unlocked.Err? { r := Err(unlocked.error); return; }
      var h := HeldSecrets();
      if h.Err? { r := Err(h.error); return; }
      held := h.value;
      assert forall n :: vault.GetWith(n, vault.lock.key) == old(vault.GetWith(n, Opened(vault.lock.setting, pass).value));
      r := TakeLock(pass, h.value);
    }

    /** Opens every secret before the setting goes, so that none is left sealed
        without its lock. */
    method TakeLock(pass: string, held: map<Name, string>) returns (r: Result<()>)
      requires Valid() && On(vault.lock.setting) && Opened(vault.lock.setting, pass) == Ok(vault.lock.key)
      requires !vault.portable && IsHeld(held, vault.lock.key)
      modifies vault, vault.machine
      ensures Valid()
      ensures r.Err? ==> Grew(old(vault.machine.trace), vault.machine.trace, old(vault.machine.disk), old(vault.machine.disk).setting, held, None)
      ensures r.Ok? ==> Opens(old(vault.machine.trace), vault.machine.trace, old(vault.machine.disk), held, vault.persistent)
      ensures old(vault.InStep()) && (forall n :: n in held ==> !LooksSealed(held[n])) ==>
        forall i :: |old(vault.machine.trace)| <= i < |vault.machine.trace|
          ==> Keeps(list, old(vault.machine.disk), pass, vault.machine.trace[i], pass)
    {
      ghost var before, was := vault.machine.disk, vault.machine.trace;
      if vault.InStep() { HeldInStep(held, vault.lock.key); }
      ghost var plain := old(vault.InStep()) && (forall n :: n in held ==> !LooksSealed(held[n]));
      hide IsHeld, Grew, Keeps, AllWritten, Unsealed, HeldFrom, LooksSealed, PartWritten, Written, ReadAfter, Form, Listed;
      vault.lock := new Lock(None);
      var failed := Rewrite(held);
      if plain { UnlockingRun(list, was, before, vault.machine.trace, held, pass); }
      if failed != [] { return Err(Left(failed)); }
      ghost var written := vault.machine.trace;
      var saved := vault.machine.SaveSetting(None);
      if !saved { return Err(WriteFailed); }
      assert vault.machine.trace[..|written|] == written;
      if plain {
        UnlockingKeeps(list, before, vault.machine.disk, held, pass, Opened(before.setting, pass).value.value);
      }
      return Ok(());
    }
  }

  lemma ListedMore(list: seq<Connection>, i: nat)
    requires i < |list|
    ensures forall n :: Listed(list[..i + 1], n) <==> Listed(list[..i], n) || (n.connection == list[i].id && n.key in list[i].secrets)
  {
    assert list[..i + 1] == list[..i] + [list[i]];
    forall n: Name | n.connection == list[i].id && n.key in list[i].secrets ensures Listed(list[..i + 1], n) {
      assert list[i] in list[..i + 1];
    }
    forall n | Listed(list[..i], n) ensures Listed(list[..i + 1], n) {
      var c :| c in list[..i] && c.id == n.connection && n.key in c.secrets;
      assert c in list[..i + 1];
    }
  }
}

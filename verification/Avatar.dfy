/** Avatar publication and reclamation.  An upload reserves a row that expires after a day, takes
    the avatar's lock, then for each size lists the variant in the row before it writes the file,
    and publishes in one transaction.  Maintenance reclaims expired rows under the same lock.
    Uploads, crashes and maintenance interleave.  Variant ids are fresh UUIDs, one per avatar and
    size, so a file is named by its avatar and size. */
module Avatar {
  import opened Messages
  import opened Runs
  import RecordFile
  import Upload

  type Id = nat
  type Uid = int

  const SIZES: seq<nat> := [64, 128, 256]

  datatype File = File(written: nat, total: nat)

  /** `variants` gives the recorded byte count of every listed size. */
  datatype Row = Row(variants: map<nat, nat>, expires: Option<int>)

  /** Reserved: the row is inserted, the lock not yet held.  Afterwards the lock is held: Ready
      between two sizes, Listed once the next size is in the row, Writing once its file exists. */
  datatype Phase = Reserved | Ready | Listed | Writing

  datatype Job = Job(expected: nat, deadline: int, phase: Phase, done: nat, variants: map<nat, nat>)

  /** Everything that belongs to one avatar id; `sweep` are the files a running collection still
      has to remove. */
  datatype Avatar = Avatar(owner: Uid, row: Option<Row>, files: map<nat, File>, job: Option<Job>, sweep: Option<set<nat>>)

  datatype User = User(avatar: Option<Id>, version: nat, history: seq<Id>)

  datatype State = State(now: int, avatars: map<Id, Avatar>, users: map<Uid, User>)

  datatype Event =
    | Tick(seconds: nat)
    | Reserve(id: Id, uid: Uid, expected: nat)
    | Lock(id: Id)
    | List(id: Id, total: nat)
    | Create(id: Id)
    | Append(id: Id)
    | NextSize(id: Id)
    | Commit(id: Id)
    | Crash(id: Id)                  // the upload ends early, for whatever reason
    | SweepStart(id: Id)
    | SweepFile(id: Id, size: nat)
    | SweepDone(id: Id)
    | SweepCrash(id: Id)

  /** The lock on an avatar is held by the upload past its reservation, or by a collection. */
  predicate Writer(a: Avatar) {
    a.job.Some? && a.job.value.phase != Reserved
  }

  predicate In(a: Avatar, phase: Phase) {
    a.job.Some? && a.job.value.phase == phase
  }

  predicate HasNext(a: Avatar) {
    a.job.Some? && a.job.value.done < |SIZES|
  }

  function Size(a: Avatar): nat
    requires HasNext(a)
  {
    SIZES[a.job.value.done]
  }

  predicate IsCurrent(s: State, id: Id) {
    exists u :: u in s.users && s.users[u].avatar == Some(id)
  }

  /** What an event on one avatar needs and does. */
  predicate Can(a: Avatar, e: Event, now: int) {
    match e
    case Lock(_) => In(a, Reserved) && a.sweep.None?
    case List(_, _) => In(a, Ready) && HasNext(a)
    case Create(_) => In(a, Listed) && HasNext(a) && Size(a) in a.job.value.variants
    case Append(_) => In(a, Writing) && HasNext(a) && Size(a) in a.files && a.files[Size(a)].written < a.files[Size(a)].total
    case NextSize(_) => In(a, Writing) && HasNext(a) && Size(a) in a.files && a.files[Size(a)].written >= a.files[Size(a)].total
    case Crash(_) => a.job.Some?
    case SweepStart(_) =>
      a.row.Some? && a.row.value.expires.Some? && a.row.value.expires.value <= now && !Writer(a) && a.sweep.None?
    case SweepFile(_, size) => a.sweep.Some? && size in a.sweep.value
    case SweepDone(_) => a.sweep == Some({})
    case SweepCrash(_) => a.sweep.Some?
    case _ => false
  }

  function WithJob(a: Avatar, j: Job): Avatar {
    a.(job := Some(j))
  }

  /** An UPDATE of a row that is gone changes nothing and reports nothing. */
  function SetVariants(row: Option<Row>, variants: map<nat, nat>): Option<Row> {
    if row.Some? then Some(row.value.(variants := variants)) else None
  }

  function SetExpiry(row: Option<Row>, expires: Option<int>): Option<Row> {
    if row.Some? then Some(row.value.(expires := expires)) else None
  }

  function Does(a: Avatar, e: Event, now: int): Avatar
    requires Can(a, e, now)
  {
    match e
    case Lock(_) => WithJob(a, a.job.value.(phase := Ready))
    case List(_, total) =>
      var variants := a.job.value.variants[Size(a) := total];
      WithJob(a, a.job.value.(phase := Listed, variants := variants)).(row := SetVariants(a.row, variants))
    case Create(_) =>
      WithJob(a, a.job.value.(phase := Writing)).(files := a.files[Size(a) := File(0, a.job.value.variants[Size(a)])])
    case Append(_) =>
      var f := a.files[Size(a)];
      a.(files := a.files[Size(a) := f.(written := if f.written + RecordFile.CHUNK < f.total then f.written + RecordFile.CHUNK else f.total)])
    case NextSize(_) => WithJob(a, a.job.value.(phase := Ready, done := a.job.value.done + 1))
    case Crash(_) => a.(job := None)
    case SweepStart(_) => a.(sweep := Some(a.row.value.variants.Keys))
    case SweepFile(_, size) => a.(files := a.files - {size}, sweep := Some(a.sweep.value - {size}))
    case SweepDone(_) => a.(row := None, sweep := None)
    case SweepCrash(_) => a.(sweep := None)
    case _ => a
  }

  predicate Enabled(s: State, e: Event) {
    match e
    case Tick(_) => true
    case Reserve(id, _, _) => id !in s.avatars
    case Commit(id) => id in s.avatars && In(s.avatars[id], Ready) && !HasNext(s.avatars[id])
    case _ => e.id in s.avatars && Can(s.avatars[e.id], e, s.now) && (e.SweepStart? ==> !IsCurrent(s, e.id))
  }

  /** Whether the publishing transaction goes through: the user exists and has the version the
      client named in If-Match. */
  predicate Matches(s: State, id: Id)
    requires id in s.avatars && s.avatars[id].job.Some?
  {
    var u := s.avatars[id].owner;
    u in s.users && s.users[u].version == s.avatars[id].job.value.expected
  }

  /** The old avatar starts its last day. */
  function Retire(avatars: map<Id, Avatar>, previous: Option<Id>, now: int): map<Id, Avatar> {
    if previous.Some? && previous.value in avatars
    then avatars[previous.value := avatars[previous.value].(row := SetExpiry(avatars[previous.value].row, Some(now + Upload.DAY)))]
    else avatars
  }

  function Committed(s: State, id: Id): State
    requires id in s.avatars && s.avatars[id].job.Some?
  {
    var a := s.avatars[id].(job := None);
    if !Matches(s, id) then s.(avatars := s.avatars[id := a])
    else
      var u := s.users[a.owner];
      var published := s.avatars[id := a.(row := SetExpiry(a.row, None))];
      s.(avatars := Retire(published, u.avatar, s.now),
         users := s.users[a.owner := User(Some(id), u.version + 1, u.history + [id])])
  }

  function Step(s: State, e: Event): State
    requires Enabled(s, e)
  {
    match e
    case Tick(d) => s.(now := s.now + d)
    case Reserve(id, uid, expected) =>
      var deadline := s.now + Upload.DAY;
      s.(avatars := s.avatars[id := Avatar(uid, Some(Row(map[], Some(deadline))), map[], Some(Job(expected, deadline, Reserved, 0, map[])), None)])
    case Commit(id) => Committed(s, id)
    case _ => s.(avatars := s.avatars[e.id := Does(s.avatars[e.id], e, s.now)])
  }

  ghost predicate Next(s: State, e: Event, s': State) {
    Enabled(s, e) && s' == Step(s, e)
  }

  /** Every stored variant file is listed in its row. */
  predicate NoOrphans(a: Avatar) {
    forall size :: size in a.files ==> a.row.Some? && size in a.row.value.variants
  }

  predicate Stored(a: Avatar, size: nat, total: nat) {
    size in a.files && a.files[size] == File(total, total)
  }

  /** A published avatar: a row that does not expire and all three files, complete. */
  predicate Published(a: Avatar) {
    && a.row.Some? && a.row.value.expires.None? && a.job.None? && a.sweep.None?
    && forall size :: size in SIZES ==> size in a.row.value.variants && Stored(a, size, a.row.value.variants[size])
  }

  /** The sizes an upload has dealt with so far are listed and stored. */
  predicate Progress(a: Avatar, j: Job) {
    && j.done <= |SIZES|
    && (forall i :: 0 <= i < j.done ==> SIZES[i] in j.variants && Stored(a, SIZES[i], j.variants[SIZES[i]]))
    && (j.phase == Listed || j.phase == Writing ==> j.done < |SIZES| && SIZES[j.done] in j.variants)
    && (j.phase == Writing ==>
          && SIZES[j.done] in a.files
          && a.files[SIZES[j.done]].total == j.variants[SIZES[j.done]]
          && a.files[SIZES[j.done]].written <= a.files[SIZES[j.done]].total)
  }

  predicate Uploading(a: Avatar) {
    && Writer(a) && a.row.Some? && a.row.value.variants == a.job.value.variants && a.sweep.None?
    && Progress(a, a.job.value)
  }

  /** A reservation whose lock is not held yet; its row can only have gone after the deadline. */
  predicate Waiting(a: Avatar, now: int) {
    && In(a, Reserved) && a.files == map[] && a.job.value.variants == map[] && a.job.value.done == 0
    && (a.row.Some? ==> a.row.value == Row(map[], Some(a.job.value.deadline)))
    && (a.row.None? ==> a.job.value.deadline <= now)
  }

  predicate AvatarOk(a: Avatar, current: bool, now: int) {
    && NoOrphans(a)
    && (current ==> Published(a))
    && (a.row.Some? && !current ==> a.row.value.expires.Some?)
    && (Writer(a) ==> Uploading(a))
    && (In(a, Reserved) ==> Waiting(a, now))
    && (a.sweep.Some? ==> a.row.Some? && a.row.value.expires.Some? && a.row.value.expires.value <= now && a.files.Keys <= a.sweep.value)
  }

  /** Current means current for its owner. */
  predicate Owned(s: State) {
    forall u :: u in s.users && s.users[u].avatar.Some? ==>
      s.users[u].avatar.value in s.avatars && s.avatars[s.users[u].avatar.value].owner == u
  }

  predicate CurrentForOwner(s: State, id: Id)
    requires id in s.avatars
  {
    s.avatars[id].owner in s.users && s.users[s.avatars[id].owner].avatar == Some(id)
  }

  /** The version counts the updates and the last update is the current avatar. */
  predicate Versioned(u: User) {
    u.version == |u.history| && u.avatar == (if u.history == [] then None else Some(u.history[|u.history| - 1]))
  }

  ghost predicate Inv(s: State) {
    && (forall id :: id in s.avatars ==> AvatarOk(s.avatars[id], CurrentForOwner(s, id), s.now))
    && Owned(s)
    && (forall u :: u in s.users ==> Versioned(s.users[u]))
  }

  /** One avatar through one event.  A lock must be taken while the reservation still stands. */
  lemma UploadStepKeeps(a: Avatar, e: Event, now: int, current: bool)
    requires AvatarOk(a, current, now) && Can(a, e, now)
    requires e.List? || e.Create? || e.Append? || e.NextSize? || e.Crash? || (e.Lock? && a.row.Some?)
    ensures AvatarOk(Does(a, e, now), current, now)
  {
  }

  lemma SweepStepKeeps(a: Avatar, e: Event, now: int, current: bool)
    requires AvatarOk(a, current, now) && Can(a, e, now)
    requires (e.SweepStart? && !current) || e.SweepFile? || e.SweepDone? || e.SweepCrash?
    ensures AvatarOk(Does(a, e, now), current, now)
  {
    match e
    case SweepStart(_) =>
      forall size | size in a.files.Keys ensures size in a.row.value.variants.Keys {
        assert size in a.files;
      }
    case SweepFile(_, size) =>
      assert (a.files - {size}).Keys == a.files.Keys - {size};
      assert a.files == map[] ==> a.files - {size} == map[];
    case _ =>
  }

  lemma LocalStepKeeps(s: State, e: Event, s': State)
    requires Inv(s) && Next(s, e, s') && !e.Tick? && !e.Reserve? && !e.Commit?
    requires e.Lock? ==> s.avatars[e.id].row.Some?
    ensures Inv(s')
  {
    hide AvatarOk;
    var id, a := e.id, s.avatars[e.id];
    var current := CurrentForOwner(s, id);
    assert AvatarOk(a, current, s.now);
    DoesKeepsOwner(a, e, s.now);
    if e.SweepStart? || e.SweepFile? || e.SweepDone? || e.SweepCrash? {
      SweepStepKeeps(a, e, s.now, current);
    } else {
      UploadStepKeeps(a, e, s.now, current);
    }
    forall k | k in s'.avatars ensures AvatarOk(s'.avatars[k], CurrentForOwner(s', k), s'.now) {
      assert CurrentForOwner(s', k) == CurrentForOwner(s, k);
    }
  }

  lemma DoesKeepsOwner(a: Avatar, e: Event, now: int)
    requires Can(a, e, now)
    ensures Does(a, e, now).owner == a.owner
  {
  }

  lemma ReserveKeeps(s: State, id: Id, uid: Uid, expected: nat)
    requires Inv(s) && id !in s.avatars
    ensures Inv(Step(s, Reserve(id, uid, expected)))
  {
    var s' := Step(s, Reserve(id, uid, expected));
    forall k | k in s'.avatars ensures AvatarOk(s'.avatars[k], CurrentForOwner(s', k), s'.now) {
      if k != id {
        assert CurrentForOwner(s', k) == CurrentForOwner(s, k);
      }
    }
  }

  lemma TickKeeps(s: State, d: nat)
    requires Inv(s)
    ensures Inv(Step(s, Tick(d)))
  {
    var s' := Step(s, Tick(d));
    forall k | k in s'.avatars ensures AvatarOk(s'.avatars[k], CurrentForOwner(s', k), s'.now) {
      assert AvatarOk(s.avatars[k], CurrentForOwner(s, k), s.now);
    }
  }

  /** A finished upload becomes a published avatar. */
  lemma PublishKeeps(a: Avatar, now: int)
    requires AvatarOk(a, false, now) && In(a, Ready) && !HasNext(a)
    ensures AvatarOk(a.(job := None), false, now)
    ensures AvatarOk(a.(job := None, row := SetExpiry(a.row, None)), true, now)
  {
  }

  /** A replaced avatar keeps its files and starts to expire. */
  lemma RetireKeeps(a: Avatar, now: int)
    requires AvatarOk(a, true, now)
    ensures AvatarOk(a.(row := SetExpiry(a.row, Some(now + Upload.DAY))), false, now)
  {
  }

  lemma WriterNotCurrent(s: State, id: Id)
    requires Inv(s) && id in s.avatars && s.avatars[id].job.Some?
    ensures !CurrentForOwner(s, id)
  {
  }

  lemma CommitKeeps(s: State, id: Id)
    requires Inv(s) && Enabled(s, Commit(id))
    ensures Inv(Committed(s, id))
  {
    hide AvatarOk;
    var s' := Committed(s, id);
    WriterNotCurrent(s, id);
    forall k | k in s'.avatars ensures AvatarOk(s'.avatars[k], CurrentForOwner(s', k), s.now) {
      if Matches(s, id) {
        PublishedAvatar(s, id, k);
      } else {
        PublishKeeps(s.avatars[id], s.now);
      }
    }
  }

  /** The avatars after a publication: the new one, the one it replaces, and the others. */
  lemma PublishedAvatar(s: State, id: Id, k: Id)
    requires Inv(s) && Enabled(s, Commit(id)) && Matches(s, id) && !CurrentForOwner(s, id) && k in s.avatars
    ensures var s' := Committed(s, id); k in s'.avatars && AvatarOk(s'.avatars[k], CurrentForOwner(s', k), s.now)
  {
    hide AvatarOk, Versioned;
    assert AvatarOk(s.avatars[k], CurrentForOwner(s, k), s.now);
    if k == id {
      PublishKeeps(s.avatars[id], s.now);
    } else if CurrentForOwner(s, k) && s.avatars[k].owner == s.avatars[id].owner {
      RetireKeeps(s.avatars[k], s.now);
    }
  }

  /** A lock finds its reservation still standing. */
  predicate Standing(s: State, e: Event) {
    e.Lock? && e.id in s.avatars ==> s.avatars[e.id].row.Some?
  }

  ghost predicate StandingNext(s: State, e: Event, s': State) {
    Next(s, e, s') && Standing(s, e)
  }

  /** A lock is taken before the reservation's day is over. */
  predicate Prompt(s: State, e: Event) {
    e.Lock? && e.id in s.avatars && s.avatars[e.id].job.Some? ==> s.now < s.avatars[e.id].job.value.deadline
  }

  ghost predicate PromptNext(s: State, e: Event, s': State) {
    Next(s, e, s') && Prompt(s, e)
  }

  /** In time, the reservation still stands. */
  lemma ReservationStands(s: State, id: Id)
    requires Inv(s) && id in s.avatars && In(s.avatars[id], Reserved) && s.now < s.avatars[id].job.value.deadline
    ensures s.avatars[id].row.Some?
  {
  }

  lemma StepKeeps(s: State, e: Event, s': State)
    requires Inv(s) && Next(s, e, s') && (e.Lock? ==> s.avatars[e.id].row.Some?)
    ensures Inv(s')
  {
    hide Inv;
    match e
    case Tick(d) => TickKeeps(s, d);
    case Reserve(id, uid, expected) => ReserveKeeps(s, id, uid, expected);
    case Commit(id) => CommitKeeps(s, id);
    case _ => LocalStepKeeps(s, e, s');
  }

  type Run = seq<Transition<Event, State>>

  predicate Initial(s: State) {
    s.avatars == map[] && forall u :: u in s.users ==> s.users[u] == User(None, 0, [])
  }

  lemma RunKeeps(s: State, run: Run)
    requires Inv(s) && IsRun(StandingNext, s, run)
    ensures Inv(Final(s, run))
  {
    hide Inv, Next;
    forall a, e, b | Inv(a) && StandingNext(a, e, b) ensures Inv(b) { StandingStepKeeps(a, e, b); }
    InvariantHolds(StandingNext, Inv, s, run);
  }

  lemma StandingStepKeeps(s: State, e: Event, s': State)
    requires Inv(s) && StandingNext(s, e, s')
    ensures Inv(s')
  {
    hide Inv;
    StepKeeps(s, e, s');
  }

  /** In every interleaving of uploads, crashes and maintenance in which every lock finds its
      reservation standing: a current avatar has a row that does not expire and its three complete
      files, no file is without a row that lists it, and every other row expires. */
  lemma AvatarsSafe(s: State, run: Run)
    requires Initial(s) && IsRun(StandingNext, s, run)
    ensures var t := Final(s, run);
            && (forall u :: u in t.users && t.users[u].avatar.Some? ==>
                  t.users[u].avatar.value in t.avatars && Published(t.avatars[t.users[u].avatar.value]))
            && (forall id :: id in t.avatars ==> NoOrphans(t.avatars[id]))
            && (forall id :: id in t.avatars && t.avatars[id].row.Some? && !IsCurrent(t, id) ==> t.avatars[id].row.value.expires.Some?)
  {
    assert Inv(s);
    RunKeeps(s, run);
    var t := Final(s, run);
    forall u | u in t.users && t.users[u].avatar.Some?
      ensures t.users[u].avatar.value in t.avatars && Published(t.avatars[t.users[u].avatar.value])
    {
      var id := t.users[u].avatar.value;
      assert AvatarOk(t.avatars[id], CurrentForOwner(t, id), t.now);
    }
  }

  /** It is enough that every lock is taken within a day of its reservation. */
  lemma {:induction false} PromptLocksStand(s: State, run: Run)
    requires Inv(s) && IsRun(PromptNext, s, run)
    ensures IsRun(StandingNext, s, run)
    decreases run
  {
    hide Inv;
    if run != [] {
      var e, t := run[0].event, run[0].after;
      if e.Lock? {
        ReservationStands(s, e.id);
      }
      StepKeeps(s, e, t);
      PromptLocksStand(t, run[1..]);
    }
  }

  /** Updates are only ever added to a user's history. */
  ghost predicate Grows(s: State, t: State) {
    forall u :: u in s.users ==> u in t.users && s.users[u].history <= t.users[u].history && s.users[u].version <= t.users[u].version
  }

  lemma StepGrows(s: State, e: Event, s': State)
    requires Next(s, e, s')
    ensures Grows(s, s')
  {
  }

  /** No lost update: of two uploads by one user that name the same version, at most one is
      published, however long the second takes. */
  lemma SameVersionWinsOnce(s: State, id: Id, run: Run, second: Id)
    requires Enabled(s, Commit(id)) && Matches(s, id) && IsRun(Next, Step(s, Commit(id)), run)
    requires var t := Final(Step(s, Commit(id)), run);
             && Enabled(t, Commit(second))
             && t.avatars[second].owner == s.avatars[id].owner
             && t.avatars[second].job.value.expected == s.avatars[id].job.value.expected
    ensures var t := Final(Step(s, Commit(id)), run); !Matches(t, second) && Step(t, Commit(second)).users == t.users
  {
    var s1 := Step(s, Commit(id));
    var always := (a: State) => true;
    GrowsOverRun(always, s1, run);
  }

  lemma GrowsOverRun(always: State -> bool, s: State, run: Run)
    requires IsRun(Next, s, run) && forall a :: always(a)
    ensures Grows(s, Final(s, run))
  {
    hide Next;
    forall a, e, b | Next(a, e, b) ensures Grows(a, b) { StepGrows(a, e, b); }
    RelationHolds(Next, always, Grows, s, run);
  }

  ghost predicate AllVersioned(s: State) {
    forall u :: u in s.users ==> Versioned(s.users[u])
  }

  /** Over every interleaving, late locks included, the version is the number of updates, and the
      last of them is current. */
  lemma VersionCountsUpdates(s: State, run: Run, u: Uid)
    requires Initial(s) && IsRun(Next, s, run) && u in Final(s, run).users
    ensures Versioned(Final(s, run).users[u])
  {
    hide Next;
    forall a, e, b | AllVersioned(a) && Next(a, e, b) ensures AllVersioned(b) { StepVersioned(a, e, b); }
    InvariantHolds(Next, AllVersioned, s, run);
  }

  lemma StepVersioned(s: State, e: Event, s': State)
    requires AllVersioned(s) && Next(s, e, s')
    ensures AllVersioned(s')
  {
  }

  /** The promise depends on the lock being taken while the row stands, and only on that: after
      it, listing and creating the first file leave it without a row exactly when the row had
      been reclaimed before. */
  lemma LockDecides(s: State, id: Id, total: nat)
    requires Inv(s) && Enabled(s, Lock(id))
    ensures var locked := Step(s, Lock(id));
            && Enabled(locked, List(id, total))
            && var listed := Step(locked, List(id, total));
               && Enabled(listed, Create(id))
               && (NoOrphans(Step(listed, Create(id)).avatars[id]) <==> s.avatars[id].row.Some?)
  {
    assert AvatarOk(s.avatars[id], CurrentForOwner(s, id), s.now);
    var a := s.avatars[id];
    var b := Does(Does(Does(a, Lock(id), s.now), List(id, total), s.now), Create(id), s.now);
    assert 64 in b.files;
  }

  /** And when such an upload is published, the user's current avatar has no row. */
  lemma LateCommitDangles(s: State, id: Id)
    requires Enabled(s, Commit(id)) && Matches(s, id) && s.avatars[id].row.None?
    ensures var t := Step(s, Commit(id)); CurrentForOwner(t, id) && t.avatars[id].row.None?
  {
  }

  /** One event on an only avatar of a user who has published nothing. */
  lemma Alone(now: int, a: Avatar, e: Event)
    requires !e.Tick? && !e.Reserve? && !e.Commit? && e.id == 0 && Can(a, e, now)
    ensures Next(Lone(now, a), e, Lone(now, Does(a, e, now)))
  {
    assert map[0 := a][0 := Does(a, e, now)] == map[0 := Does(a, e, now)];
  }

  function Lone(now: int, a: Avatar): State {
    State(now, map[0 := a], map[1 := User(None, 0, [])])
  }

  lemma {:induction false} AloneRun(now: int, a: Avatar, events: seq<Event>) returns (last: Avatar, run: Run)
    requires CanAll(now, a, events)
    ensures last == DoesAll(now, a, events) && IsRun(Next, Lone(now, a), run) && Final(Lone(now, a), run) == Lone(now, last)
    decreases events
  {
    if events == [] {
      return a, [];
    }
    var b := Does(a, events[0], now);
    Alone(now, a, events[0]);
    var more;
    last, more := AloneRun(now, b, events[1..]);
    run := [Transition(events[0], Lone(now, b))] + more;
    assert run[1..] == more;
  }

  predicate CanAll(now: int, a: Avatar, events: seq<Event>)
    decreases events
  {
    events != [] ==>
      var e := events[0];
      !e.Tick? && !e.Reserve? && !e.Commit? && e.id == 0 && Can(a, e, now) && CanAll(now, Does(a, e, now), events[1..])
  }

  function DoesAll(now: int, a: Avatar, events: seq<Event>): Avatar
    requires CanAll(now, a, events)
    decreases events
  {
    if events == [] then a else DoesAll(now, Does(a, events[0], now), events[1..])
  }

  /** It can happen: a reservation left unlocked for a day is reclaimed, the upload goes on
      through all three sizes and is published, and the user's current avatar has files but no row. */
  lemma LateLockHappens() returns (s: State, run: Run)
    ensures Initial(s) && IsRun(Next, s, run)
    ensures var t := Final(s, run);
            1 in t.users && t.users[1].avatar == Some(0) && 0 in t.avatars && t.avatars[0].row.None? && !NoOrphans(t.avatars[0])
  {
    s := State(0, map[], map[1 := User(None, 0, [])]);
    var a := Avatar(1, Some(Row(map[], Some(Upload.DAY))), map[], Some(Job(0, Upload.DAY, Reserved, 0, map[])), None);
    var early := ReservedForADay(s, a);
    Reclaimed(a);
    var gone, reclaim := AloneRun(Upload.DAY, a, [SweepStart(0), SweepDone(0)]);
    RunAppend(Next, s, early, reclaim);
    LockedLate(gone);
    var locked, lock := AloneRun(Upload.DAY, gone, [Lock(0)]);
    RunAppend(Next, s, early + reclaim, lock);
    var last, upload := WritesOn(locked);
    RunAppend(Next, s, early + reclaim + lock, upload);
    var before := early + reclaim + lock + upload;
    var t := Lone(Upload.DAY, last);
    LateCommitDangles(t, 0);
    var publish := [Transition(Commit(0), Step(t, Commit(0)))];
    assert publish[1..] == [];
    RunAppend(Next, s, before, publish);
    run := before + publish;
  }

  lemma ReservedForADay(s: State, a: Avatar) returns (run: Run)
    requires s == State(0, map[], map[1 := User(None, 0, [])])
    requires a == Avatar(1, Some(Row(map[], Some(Upload.DAY))), map[], Some(Job(0, Upload.DAY, Reserved, 0, map[])), None)
    ensures IsRun(Next, s, run) && Final(s, run) == Lone(Upload.DAY, a)
  {
    var s1, s2 := Lone(0, a), Lone(Upload.DAY, a);
    run := [Transition(Reserve(0, 1, 0), s1), Transition(Tick(Upload.DAY), s2)];
    assert s1 == Step(s, Reserve(0, 1, 0)) && s2 == Step(s1, Tick(Upload.DAY));
    assert run[1..] == [Transition(Tick(Upload.DAY), s2)];
  }

  /** An upload whose row is gone, between two sizes. */
  predicate Rowless(a: Avatar, done: nat) {
    a.owner == 1 && a.row.None? && In(a, Ready) && a.job.value.done == done && a.job.value.expected == 0
  }

  lemma LockedLate(a: Avatar)
    requires a.owner == 1 && a.row.None? && In(a, Reserved) && a.sweep.None? && a.job.value.done == 0 && a.job.value.expected == 0
    ensures CanAll(Upload.DAY, a, [Lock(0)]) && Rowless(DoesAll(Upload.DAY, a, [Lock(0)]), 0)
  {
    assert [Lock(0)][1..] == [];
  }

  lemma WritesSize(a: Avatar, done: nat)
    requires Rowless(a, done) && done < |SIZES|
    ensures var events := [List(0, 1), Create(0), Append(0), NextSize(0)];
            && CanAll(Upload.DAY, a, events)
            && Rowless(DoesAll(Upload.DAY, a, events), done + 1) && SIZES[done] in DoesAll(Upload.DAY, a, events).files
  {
    hide CanAll, DoesAll;
    var now, rest := Upload.DAY, [Create(0), Append(0), NextSize(0)];
    var b := Does(a, List(0, 1), now);
    var c := Does(b, Create(0), now);
    var d := Does(c, Append(0), now);
    DoesFirst(now, d, NextSize(0), []);
    DoesNone(now, Does(d, NextSize(0), now));
    DoesFirst(now, c, Append(0), [NextSize(0)]);
    DoesFirst(now, b, Create(0), [Append(0), NextSize(0)]);
    DoesFirst(now, a, List(0, 1), rest);
    assert [Append(0)] + [NextSize(0)] == [Append(0), NextSize(0)] && [Create(0)] + [Append(0), NextSize(0)] == rest;
    assert [NextSize(0)] + [] == [NextSize(0)] && [List(0, 1)] + rest == [List(0, 1), Create(0), Append(0), NextSize(0)];
  }

  lemma DoesNone(now: int, a: Avatar)
    ensures CanAll(now, a, []) && DoesAll(now, a, []) == a
  {
  }

  lemma DoesFirst(now: int, a: Avatar, e: Event, rest: seq<Event>)
    requires !e.Tick? && !e.Reserve? && !e.Commit? && e.id == 0 && Can(a, e, now)
    ensures CanAll(now, a, [e] + rest) <==> CanAll(now, Does(a, e, now), rest)
    ensures CanAll(now, a, [e] + rest) ==> DoesAll(now, a, [e] + rest) == DoesAll(now, Does(a, e, now), rest)
  {
    assert ([e] + rest)[1..] == rest;
  }

  /** The upload writes its three files and is ready to publish. */
  lemma WritesOn(a: Avatar) returns (last: Avatar, run: Run)
    requires Rowless(a, 0)
    ensures IsRun(Next, Lone(Upload.DAY, a), run) && Final(Lone(Upload.DAY, a), run) == Lone(Upload.DAY, last)
    ensures Rowless(last, 3) && last.files != map[]
  {
    hide Rowless, CanAll, DoesAll;
    var events := [List(0, 1), Create(0), Append(0), NextSize(0)];
    WritesSize(a, 0);
    var b, first := AloneRun(Upload.DAY, a, events);
    WritesSize(b, 1);
    var c, second := AloneRun(Upload.DAY, b, events);
    WritesSize(c, 2);
    var third;
    last, third := AloneRun(Upload.DAY, c, events);
    RunAppend(Next, Lone(Upload.DAY, a), first, second);
    RunAppend(Next, Lone(Upload.DAY, a), first + second, third);
    run := first + second + third;
  }

  lemma Reclaimed(a: Avatar)
    requires a.row == Some(Row(map[], Some(Upload.DAY))) && In(a, Reserved) && a.sweep.None?
    ensures CanAll(Upload.DAY, a, [SweepStart(0), SweepDone(0)]) && DoesAll(Upload.DAY, a, [SweepStart(0), SweepDone(0)]) == a.(row := None)
  {
    var events := [SweepStart(0), SweepDone(0)];
    assert a.row.value.variants.Keys == {};
    assert Does(a, events[0], Upload.DAY) == a.(sweep := Some({}));
    assert events[1..] == [SweepDone(0)] && events[1..][1..] == [];
  }

  /** The upload's loop: list, create, append chunk by chunk, for each size in turn. */
  method WriteVariants(start: Avatar, totals: seq<nat>, now: int) returns (a: Avatar)
    requires AvatarOk(start, false, now) && In(start, Ready) && start.job.value.done == 0 && |totals| == |SIZES|
    ensures AvatarOk(a, false, now) && In(a, Ready) && !HasNext(a)
    ensures a.owner == start.owner && a.job.value.expected == start.job.value.expected
    ensures forall i :: 0 <= i < |SIZES| ==> SIZES[i] in a.job.value.variants && a.job.value.variants[SIZES[i]] == totals[i]
                                             && Stored(a, SIZES[i], totals[i])
  {
    hide AvatarOk;
    a := start;
    var i := 0;
    while i < |SIZES|
      invariant 0 <= i <= |SIZES| && AvatarOk(a, false, now) && In(a, Ready) && a.job.value.done == i
      invariant a.owner == start.owner && a.job.value.expected == start.job.value.expected
      invariant forall k :: 0 <= k < i ==> SIZES[k] in a.job.value.variants && a.job.value.variants[SIZES[k]] == totals[k]
    {
      a := WriteOne(a, totals[i], now);
      i := i + 1;
    }
    AllStored(a, now);
  }

  lemma AllStored(a: Avatar, now: int)
    requires AvatarOk(a, false, now) && In(a, Ready)
    ensures Progress(a, a.job.value)
  {
  }

  /** One turn of it. */
  method WriteOne(start: Avatar, total: nat, now: int) returns (a: Avatar)
    requires AvatarOk(start, false, now) && In(start, Ready) && HasNext(start)
    ensures AvatarOk(a, false, now) && In(a, Ready) && a.owner == start.owner
    ensures a.job.value == start.job.value.(done := start.job.value.done + 1, variants := start.job.value.variants[Size(start) := total])
  {
    hide AvatarOk;
    UploadStepKeeps(start, List(0, total), now, false);
    a := Does(start, List(0, total), now);
    UploadStepKeeps(a, Create(0), now, false);
    a := Does(a, Create(0), now);
    ghost var j := a.job.value;
    while a.files[Size(a)].written < a.files[Size(a)].total
      invariant AvatarOk(a, false, now) && a.job == Some(j) && Size(a) in a.files && a.owner == start.owner
      decreases a.files[Size(a)].total - a.files[Size(a)].written
    {
      UploadStepKeeps(a, Append(0), now, false);
      a := Does(a, Append(0), now);
    }
    UploadStepKeeps(a, NextSize(0), now, false);
    a := Does(a, NextSize(0), now);
  }

  /** The collection's loop: remove every listed file, then the row.  A reclaimable avatar is
      reclaimed whole. */
  method Collect(start: Avatar, now: int) returns (a: Avatar)
    requires AvatarOk(start, false, now) && Can(start, SweepStart(0), now)
    ensures AvatarOk(a, false, now) && a.row.None? && a.files == map[] && a.sweep.None? && a.job == start.job
  {
    hide AvatarOk;
    SweepStepKeeps(start, SweepStart(0), now, false);
    a := Does(start, SweepStart(0), now);
    var listed := a.sweep.value;
    while listed != {}
      invariant AvatarOk(a, false, now) && a.sweep == Some(listed) && a.row == start.row && a.job == start.job
      decreases |listed|
    {
      SomeMember(listed);
      var size :| size in listed;
      listed := listed - {size};
      SweepStepKeeps(a, SweepFile(0, size), now, false);
      a := Does(a, SweepFile(0, size), now);
    }
    NothingLeft(a, now);
    SweepStepKeeps(a, SweepDone(0), now, false);
    a := Does(a, SweepDone(0), now);
  }

  lemma SomeMember(sizes: set<nat>)
    requires sizes != {}
    ensures exists size :: size in sizes
  {
  }

  lemma NothingLeft(a: Avatar, now: int)
    requires AvatarOk(a, false, now) && a.sweep == Some({})
    ensures a.files == map[]
  {
    assert a.files.Keys == {};
  }
}

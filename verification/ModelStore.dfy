/**
 The two-file cache commit of plugin/model_store.go: a primary file and a backup, each
 replaced from a synced temporary file, by one rename or, on Windows, by a removal and a
 rename.
 */
module ModelStore {
  import opened Common

  type Bytes = string

  datatype Verdict<V> = Valid(value: V) | Future | Invalid

  /** A file that exists may still fail to be read. */
  datatype File = Absent | Unreadable | Content(bytes: Bytes)

  datatype Disk = Disk(primary: File, backup: File, primaryTemp: Option<Bytes>, backupTemp: Option<Bytes>)

  // ------------------------------------------------------------ loading

  datatype Loaded<V> = Found(value: V) | Missing | FromFuture | Failed

  function VerdictOf<V>(f: File, decode: Bytes -> Verdict<V>): Verdict<V> {
    if f.Content? then decode(f.bytes) else Invalid
  }

  /** The primary file if it decodes, else the backup; a newer schema stops the search. */
  function Load<V>(d: Disk, decode: Bytes -> Verdict<V>): Loaded<V> {
    match VerdictOf(d.primary, decode)
    case Valid(v) => Found(v)
    case Future => FromFuture
    case Invalid =>
      match VerdictOf(d.backup, decode)
      case Valid(v) => Found(v)
      case Future => FromFuture
      case Invalid => if d.primary.Absent? && d.backup.Absent? then Missing else Failed
  }

  // ------------------------------------------------------------ the steps of a write

  datatype Step =
    | WritePrimaryTemp(data: Bytes)
    | WriteBackupTemp(data: Bytes)
    | RemoveBackup
    | RenameBackup
    | RemovePrimary
    | RenamePrimary
    | RemoveTemps

  function Take(d: Disk, step: Step): Disk {
    match step
    case WritePrimaryTemp(data) => d.(primaryTemp := Some(data))
    case WriteBackupTemp(data) => d.(backupTemp := Some(data))
    case RemoveBackup => d.(backup := Absent)
    case RenameBackup => if d.backupTemp.Some? then d.(backup := Content(d.backupTemp.value), backupTemp := None) else d
    case RemovePrimary => d.(primary := Absent)
    case RenamePrimary => if d.primaryTemp.Some? then d.(primary := Content(d.primaryTemp.value), primaryTemp := None) else d
    case RemoveTemps => d.(primaryTemp := None, backupTemp := None)
  }

  function TakeAll(d: Disk, steps: seq<Step>): Disk {
    if steps == [] then d else Take(TakeAll(d, steps[..|steps| - 1]), steps[|steps| - 1])
  }

  function Swap(windows: bool, remove: Step, rename: Step): seq<Step> {
    if windows then [remove, rename] else [rename]
  }

  /** The write gives up before it replaces anything. */
  predicate Refuses<V>(d: Disk, decode: Bytes -> Verdict<V>) {
    d.primary.Unreadable? || d.backup.Unreadable? || VerdictOf(d.primary, decode).Future? || VerdictOf(d.backup, decode).Future?
  }

  /** The file steps of a write of `data`, when none of them fails. */
  function Plan<V>(d: Disk, data: Bytes, windows: bool, decode: Bytes -> Verdict<V>): seq<Step> {
    [WritePrimaryTemp(data)] +
    (if Refuses(d, decode) then []
     else
       (if VerdictOf(d.primary, decode).Valid?
        then [WriteBackupTemp(d.primary.bytes)] + Swap(windows, RemoveBackup, RenameBackup) else [])
       + Swap(windows, RemovePrimary, RenamePrimary))
    + [RemoveTemps]
  }

  // ------------------------------------------------------------ crash safety

  /** What a disk may look like from the first step of a write to the last. */
  ghost predicate Midway<V>(d: Disk, d': Disk, data: Bytes, decode: Bytes -> Verdict<V>) {
    if Refuses(d, decode) then d'.primary == d.primary && d'.backup == d.backup
    else if VerdictOf(d.primary, decode).Valid? then
      || d'.primary == d.primary
      || (d'.primary in {Absent, Content(data)} && d'.backup == d.primary)
    else d'.backup == d.backup && d'.primary in {d.primary, Absent, Content(data)}
  }

  lemma OneMore(d: Disk, steps: seq<Step>, n: nat)
    requires n < |steps|
    ensures TakeAll(d, steps[..n + 1]) == Take(TakeAll(d, steps[..n]), steps[n])
  {
    assert steps[..n + 1][..n] == steps[..n];
  }

  /** What a step needs to find, so that it keeps the disk midway. */
  ghost predicate Ready<V>(d: Disk, d': Disk, data: Bytes, decode: Bytes -> Verdict<V>, step: Step) {
    match step
    case WritePrimaryTemp(x) => x == data
    case WriteBackupTemp(x) => VerdictOf(d.primary, decode).Valid? && x == d.primary.bytes
    case RemoveBackup => VerdictOf(d.primary, decode).Valid? && !Refuses(d, decode) && d'.primary == d.primary
    case RenameBackup =>
      VerdictOf(d.primary, decode).Valid? && !Refuses(d, decode) && d'.primary == d.primary && d'.backupTemp == Some(d.primary.bytes)
    case RemovePrimary => !Refuses(d, decode) && (VerdictOf(d.primary, decode).Valid? ==> d'.backup == d.primary)
    case RenamePrimary =>
      !Refuses(d, decode) && (VerdictOf(d.primary, decode).Valid? ==> d'.backup == d.primary) && d'.primaryTemp == Some(data)
    case RemoveTemps => true
  }

  lemma ReadyStep<V>(d: Disk, d': Disk, data: Bytes, decode: Bytes -> Verdict<V>, step: Step)
    requires Midway(d, d', data, decode) && Ready(d, d', data, decode, step)
    ensures Midway(d, Take(d', step), data, decode)
  {
  }

  /** The plan's steps find what they need. */
  lemma PlanIsReady<V>(d: Disk, data: Bytes, windows: bool, decode: Bytes -> Verdict<V>, n: nat)
    requires n < |Plan(d, data, windows, decode)|
    ensures var plan := Plan(d, data, windows, decode);
            Ready(d, TakeAll(d, plan[..n]), data, decode, plan[n])
  {
    var plan := Plan(d, data, windows, decode);
    assert plan[..0] == [];
    if n > 0 {
      OneMore(d, plan, 0);
    }
    if n > 1 {
      OneMore(d, plan, 1);
    }
    if n > 2 {
      OneMore(d, plan, 2);
    }
    if n > 3 {
      OneMore(d, plan, 3);
    }
    if n > 4 {
      OneMore(d, plan, 4);
    }
  }

  /** Every prefix of the plan leaves the disk midway. */
  lemma {:induction false} PrefixIsMidway<V>(d: Disk, data: Bytes, windows: bool, decode: Bytes -> Verdict<V>, n: nat)
    requires n <= |Plan(d, data, windows, decode)|
    ensures Midway(d, TakeAll(d, Plan(d, data, windows, decode)[..n]), data, decode)
  {
    var plan := Plan(d, data, windows, decode);
    if n == 0 {
      assert plan[..0] == [];
    } else {
      PrefixIsMidway(d, data, windows, decode, n - 1);
      PlanIsReady(d, data, windows, decode, n - 1);
      OneMore(d, plan, n - 1);
      ReadyStep(d, TakeAll(d, plan[..n - 1]), data, decode, plan[n - 1]);
    }
  }

  /** After any prefix of the file steps, and with or without the clean-up of temporary files
      that follows a failure, loading finds the old value or the new one. If nothing could be
      loaded before, it finds nothing or the new value. */
  lemma CrashSafe<V>(d: Disk, data: Bytes, windows: bool, decode: Bytes -> Verdict<V>, n: nat, cleaned: bool)
    requires n <= |Plan(d, data, windows, decode)| && decode(data).Valid?
    ensures var cut := TakeAll(d, Plan(d, data, windows, decode)[..n]);
            var d' := if cleaned then Take(cut, RemoveTemps) else cut;
            && (Load(d, decode).Found? ==> Load(d', decode) in {Load(d, decode), Found(decode(data).value)})
            && (!Load(d, decode).Found? && Load(d', decode).Found? ==> Load(d', decode).value == decode(data).value)
  {
    PrefixIsMidway(d, data, windows, decode, n);
  }

  /** A primary or backup of a newer schema is left as it is, and so is the other file. */
  lemma FutureIsKept<V>(d: Disk, data: Bytes, windows: bool, decode: Bytes -> Verdict<V>, n: nat)
    requires n <= |Plan(d, data, windows, decode)|
    requires VerdictOf(d.primary, decode).Future? || VerdictOf(d.backup, decode).Future?
    ensures var d' := TakeAll(d, Plan(d, data, windows, decode)[..n]);
            d'.primary == d.primary && d'.backup == d.backup
  {
    PrefixIsMidway(d, data, windows, decode, n);
  }

  /** A write that runs to its end leaves its own value, and the one before as the backup. */
  lemma Completed<V>(d: Disk, data: Bytes, windows: bool, decode: Bytes -> Verdict<V>)
    requires !Refuses(d, decode) && decode(data).Valid?
    ensures var d' := TakeAll(d, Plan(d, data, windows, decode));
            && d'.primary == Content(data) && d'.primaryTemp == d'.backupTemp == None
            && (VerdictOf(d.primary, decode).Valid? ==> d'.backup == d.primary)
  {
    var plan := Plan(d, data, windows, decode);
    var n := |plan|;
    assert plan[..n] == plan;
    OneMore(d, plan, n - 1);
    OneMore(d, plan, n - 2);
    PlanIsReady(d, data, windows, decode, n - 2);
  }

  /** On Windows there are two moments without a file: first one without a backup, while the
      primary file is the old one, then one without a primary file, while the backup is. */
  lemma WindowsGaps<V>(d: Disk, data: Bytes, decode: Bytes -> Verdict<V>)
    requires !Refuses(d, decode) && VerdictOf(d.primary, decode).Valid?
    ensures var plan := Plan(d, data, true, decode);
            && |plan| == 7
            && TakeAll(d, plan[..3]) == Disk(d.primary, Absent, Some(data), Some(d.primary.bytes))
            && TakeAll(d, plan[..4]) == Disk(d.primary, d.primary, Some(data), None)
            && TakeAll(d, plan[..5]) == Disk(Absent, d.primary, Some(data), None)
            && TakeAll(d, plan[..6]) == Disk(Content(data), d.primary, None, None)
  {
    FirstSteps(d, data, true, decode);
    var plan := Plan(d, data, true, decode);
    OneMore(d, plan, 2);
    OneMore(d, plan, 3);
    OneMore(d, plan, 4);
    OneMore(d, plan, 5);
  }

  lemma FirstSteps<V>(d: Disk, data: Bytes, windows: bool, decode: Bytes -> Verdict<V>)
    requires !Refuses(d, decode) && VerdictOf(d.primary, decode).Valid?
    ensures TakeAll(d, Plan(d, data, windows, decode)[..2]) == d.(primaryTemp := Some(data), backupTemp := Some(d.primary.bytes))
  {
    var plan := Plan(d, data, windows, decode);
    assert plan[..0] == [];
    OneMore(d, plan, 0);
    OneMore(d, plan, 1);
  }

  /** Elsewhere each file is there at every moment, the old one or the new one. */
  lemma OtherwiseNoGaps<V>(d: Disk, data: Bytes, decode: Bytes -> Verdict<V>)
    requires !Refuses(d, decode) && VerdictOf(d.primary, decode).Valid?
    ensures var plan := Plan(d, data, false, decode);
            && |plan| == 5
            && TakeAll(d, plan[..3]) == Disk(d.primary, d.primary, Some(data), None)
            && TakeAll(d, plan[..4]) == Disk(Content(data), d.primary, None, None)
  {
    FirstSteps(d, data, false, decode);
    var plan := Plan(d, data, false, decode);
    OneMore(d, plan, 2);
    OneMore(d, plan, 3);
  }

  // ------------------------------------------------------------ whole runs

  /** A write that is cut off after `cut` steps, by a crash or, when `cleaned`, by a failure. */
  datatype Attempt = Attempt(data: Bytes, cut: nat, cleaned: bool)

  function After<V>(d: Disk, a: Attempt, windows: bool, decode: Bytes -> Verdict<V>): Disk {
    var plan := Plan(d, a.data, windows, decode);
    var d' := TakeAll(d, if a.cut < |plan| then plan[..a.cut] else plan);
    if a.cleaned then Take(d', RemoveTemps) else d'
  }

  ghost predicate IsRun<V>(disks: seq<Disk>, attempts: seq<Attempt>, windows: bool, decode: Bytes -> Verdict<V>) {
    && |disks| == |attempts| + 1
    && forall i :: 0 <= i < |attempts| ==> AttemptAt(disks, attempts, windows, decode, i)
  }

  ghost predicate AttemptAt<V>(disks: seq<Disk>, attempts: seq<Attempt>, windows: bool, decode: Bytes -> Verdict<V>, i: int)
    requires |disks| == |attempts| + 1 && 0 <= i < |attempts|
  {
    decode(attempts[i].data).Valid? && disks[i + 1] == After(disks[i], attempts[i], windows, decode)
  }

  lemma AfterIsSafe<V>(d: Disk, a: Attempt, windows: bool, decode: Bytes -> Verdict<V>)
    requires decode(a.data).Valid? && Load(d, decode).Found?
    ensures Load(After(d, a, windows, decode), decode) in {Load(d, decode), Found(decode(a.data).value)}
  {
    var plan := Plan(d, a.data, windows, decode);
    var n := if a.cut < |plan| then a.cut else |plan|;
    assert plan[..|plan|] == plan;
    CrashSafe(d, a.data, windows, decode, n, a.cleaned);
  }

  /** What is loaded is what the attempt meant to write. */
  ghost predicate Holds<V>(d: Disk, a: Attempt, decode: Bytes -> Verdict<V>) {
    Load(d, decode).Found? && decode(a.data) == Valid(Load(d, decode).value)
  }

  /** Once something can be loaded, something always can, and it is what could be loaded then
      or the value of some write attempted since. */
  lemma {:induction false} NeverLost<V>(disks: seq<Disk>, attempts: seq<Attempt>, windows: bool, decode: Bytes -> Verdict<V>, i: nat, j: nat)
    requires IsRun(disks, attempts, windows, decode) && i <= j < |disks| && Load(disks[i], decode).Found?
    ensures Load(disks[j], decode).Found?
    ensures || Load(disks[j], decode) == Load(disks[i], decode)
            || exists k :: i <= k < j && Holds(disks[j], attempts[k], decode)
    decreases j
  {
    if i < j {
      NeverLost(disks, attempts, windows, decode, i, j - 1);
      assert AttemptAt(disks, attempts, windows, decode, j - 1);
      AfterIsSafe(disks[j - 1], attempts[j - 1], windows, decode);
      if Load(disks[j], decode) != Load(disks[j - 1], decode) {
        assert Holds(disks[j], attempts[j - 1], decode);
      } else if Load(disks[j], decode) != Load(disks[i], decode) {
        var k :| i <= k < j - 1 && Holds(disks[j - 1], attempts[k], decode);
        assert Holds(disks[j], attempts[k], decode);
      }
    }
  }

  /** After a write that ran to its end, nothing older is ever loaded again. */
  lemma NeverOlder<V>(disks: seq<Disk>, attempts: seq<Attempt>, windows: bool, decode: Bytes -> Verdict<V>, i: nat, j: nat)
    requires IsRun(disks, attempts, windows, decode) && i < j < |disks|
    requires !Refuses(disks[i], decode) && attempts[i].cut >= |Plan(disks[i], attempts[i].data, windows, decode)|
    ensures exists k :: i <= k < j && Holds(disks[j], attempts[k], decode)
  {
    assert AttemptAt(disks, attempts, windows, decode, i);
    Completed(disks[i], attempts[i].data, windows, decode);
    NeverLost(disks, attempts, windows, decode, i + 1, j);
    if Load(disks[j], decode) == Load(disks[i + 1], decode) {
      assert Holds(disks[j], attempts[i], decode);
    }
  }

  // ------------------------------------------------------------ a newer schema

  /** The file exists, can be read, and decodes to this. */
  ghost predicate Decodes<V>(f: File, verdict: Verdict<V>, decode: Bytes -> Verdict<V>) {
    f.Content? && decode(f.bytes) == verdict
  }

  /** Neither a value nor a newer schema: such a primary file lets the backup answer. */
  ghost predicate Useless<V>(f: File, decode: Bytes -> Verdict<V>) {
    f.Absent? || f.Unreadable? || decode(f.bytes).Invalid?
  }

  /** The primary file answers unless it is useless, whatever the backup holds; then the backup
      does. Nothing is missing unless there is neither file. */
  lemma LoadOnFiles<V>(d: Disk, decode: Bytes -> Verdict<V>)
    ensures forall v :: Load(d, decode) == Found(v) <==>
              Decodes(d.primary, Valid(v), decode) || (Useless(d.primary, decode) && Decodes(d.backup, Valid(v), decode))
    ensures Load(d, decode) == FromFuture <==>
              Decodes(d.primary, Future, decode) || (Useless(d.primary, decode) && Decodes(d.backup, Future, decode))
    ensures Load(d, decode) == Missing <==> d.primary == d.backup == Absent
  {
  }

  /** Once the primary file is of a newer schema, no later run of writes lets an older value be
      loaded, not even that of the backup. */
  lemma {:induction false} NewerSchemaStays<V>(disks: seq<Disk>, attempts: seq<Attempt>, windows: bool, decode: Bytes -> Verdict<V>, i: nat, j: nat)
    requires IsRun(disks, attempts, windows, decode) && i <= j < |disks| && Decodes(disks[i].primary, Future, decode)
    ensures disks[j].primary == disks[i].primary && disks[j].backup == disks[i].backup
    ensures Load(disks[j], decode) == FromFuture
    decreases j
  {
    if i < j {
      NewerSchemaStays(disks, attempts, windows, decode, i, j - 1);
      assert AttemptAt(disks, attempts, windows, decode, j - 1);
      var a := attempts[j - 1];
      var plan := Plan(disks[j - 1], a.data, windows, decode);
      assert plan[..|plan|] == plan;
      FutureIsKept(disks[j - 1], a.data, windows, decode, if a.cut < |plan| then a.cut else |plan|);
    }
  }

  // ------------------------------------------------------------ the store

  /** The plan, position by position. */
  ghost predicate Shape<V>(d: Disk, data: Bytes, windows: bool, decode: Bytes -> Verdict<V>, plan: seq<Step>) {
    var w := if windows then 2 else 1;
    && plan != [] && plan[0] == WritePrimaryTemp(data)
    && if Refuses(d, decode) then |plan| == 2 && plan[1] == RemoveTemps
       else if VerdictOf(d.primary, decode).Valid? then
         && |plan| == 3 + 2 * w && plan[1] == WriteBackupTemp(d.primary.bytes)
         && Part(plan, 2, windows, RemoveBackup, RenameBackup)
         && Part(plan, 2 + w, windows, RemovePrimary, RenamePrimary) && plan[2 + 2 * w] == RemoveTemps
       else |plan| == 2 + w && Part(plan, 1, windows, RemovePrimary, RenamePrimary) && plan[1 + w] == RemoveTemps
  }

  predicate Part(plan: seq<Step>, n: nat, windows: bool, remove: Step, rename: Step) {
    if windows then n + 1 < |plan| && plan[n] == remove && plan[n + 1] == rename
    else n < |plan| && plan[n] == rename
  }

  lemma PlanHasShape<V>(d: Disk, data: Bytes, windows: bool, decode: Bytes -> Verdict<V>)
    ensures Shape(d, data, windows, decode, Plan(d, data, windows, decode))
  {
  }

  class Store<V> {
    const windows: bool
    const decode: Bytes -> Verdict<V>
    var disk: Disk

    constructor (windows: bool, decode: Bytes -> Verdict<V>, disk: Disk)
      ensures this.windows == windows && this.decode == decode && this.disk == disk
    {
      this.windows, this.decode, this.disk := windows, decode, disk;
    }

    method LoadCache() returns (r: Loaded<V>)
      ensures r == Load(disk, decode)
    {
      var files := [disk.primary, disk.backup];
      var found := false;
      for i := 0 to |files|
        invariant forall k :: 0 <= k < i ==> VerdictOf(files[k], decode).Invalid?
        invariant found <==> exists k :: 0 <= k < i && !files[k].Absent?
      {
        assert i == 1 ==> VerdictOf(files[0], decode).Invalid? && files[0] == disk.primary;
        match files[i]
        case Absent => continue;
        case Unreadable => found := true;
        case Content(bytes) =>
          found := true;
          match decode(bytes)
          case Valid(v) => return Found(v);
          case Future => return FromFuture;
          case Invalid =>
      }
      assert VerdictOf(files[0], decode).Invalid? && VerdictOf(files[1], decode).Invalid?;
      r := if found then Failed else Missing;
    }

    /** A write whose process dies after `budget` file steps. */
    method Write(data: Bytes, budget: nat)
      modifies this
      ensures var plan := Plan(old(disk), data, windows, decode);
              disk == TakeAll(old(disk), if budget < |plan| then plan[..budget] else plan)
    {
      PlanHasShape(disk, data, windows, decode);
      WriteSteps(data, budget, disk, Plan(disk, data, windows, decode));
    }

    method WriteSteps(data: Bytes, budget: nat, ghost d: Disk, ghost plan: seq<Step>)
      requires disk == d && Shape(d, data, windows, decode, plan)
      modifies this
      ensures disk == TakeAll(d, if budget < |plan| then plan[..budget] else plan)
    {
      assert plan[..0] == [] && plan[..|plan|] == plan;
      var primary, backup := disk.primary, disk.backup;
      var n := 1;
      var alive := Do(WritePrimaryTemp(data), budget, d, plan, 0);
      if !alive {
        return;
      }
      var refused := primary.Unreadable? || backup.Unreadable?
        || VerdictOf(primary, decode).Future? || VerdictOf(backup, decode).Future?;
      if !refused {
        if VerdictOf(primary, decode).Valid? {
          alive := Do(WriteBackupTemp(primary.bytes), budget, d, plan, n);
          if !alive {
            return;
          }
          alive, n := Replace(RemoveBackup, RenameBackup, budget, d, plan, n + 1);
          if !alive {
            return;
          }
        }
        alive, n := Replace(RemovePrimary, RenamePrimary, budget, d, plan, n);
        if !alive {
          return;
        }
      }
      alive := Do(RemoveTemps, budget, d, plan, n);
    }

    /** One file step, unless the process is dead by then. */
    method Do(step: Step, budget: nat, ghost d: Disk, ghost plan: seq<Step>, n: nat) returns (alive: bool)
      requires n < |plan| && plan[n] == step && n <= budget && disk == TakeAll(d, plan[..n])
      modifies this
      ensures alive <==> n < budget
      ensures disk == TakeAll(d, plan[..if alive then n + 1 else budget])
    {
      alive := n < budget;
      if alive {
        OneMore(d, plan, n);
        disk := Take(disk, step);
      }
    }

    /** Renaming over the destination, which on Windows has to be removed first. */
    method Replace(remove: Step, rename: Step, budget: nat, ghost d: Disk, ghost plan: seq<Step>, n: nat) returns (alive: bool, next: nat)
      requires Part(plan, n, windows, remove, rename) && n <= budget && disk == TakeAll(d, plan[..n])
      modifies this
      ensures next == n + (if windows then 2 else 1) && (alive <==> next <= budget)
      ensures disk == TakeAll(d, plan[..if alive then next else budget])
    {
      next := n;
      if windows {
        alive := Do(remove, budget, d, plan, n);
        if !alive {
          return alive, n + 2;
        }
        next := n + 1;
      }
      alive := Do(rename, budget, d, plan, next);
      next := next + 1;
    }
  }
}

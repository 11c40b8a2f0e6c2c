/** internal/store/app_updates.go: the durable operation rows that own an app while it is deployed or updated. */
module Operations {
  import opened Common
  import opened Strings

  datatype Status = Preflighting | Building | BackingUp | CuttingOver | Verifying | RollingBack
                  | Completed | OpFailed | RolledBack | RollbackFailed | Cancelled | Interrupted

  predicate Active(status: Status) {
    status in {Preflighting, Building, BackingUp, CuttingOver, Verifying, RollingBack}
  }

  datatype Operation = Operation(id: string, appID: string, kind: string, status: Status, step: string,
                                 attempt: nat, heartbeatAt: int, error: string, createdAt: int,
                                 startedAt: Option<int>, completedAt: Option<int>)

  datatype AppStatus = Pending | Updating | Running | Stopped | Failed

  datatype AppState = AppState(status: AppStatus, lastError: string)

  /** The rows in insertion order, and the two app columns an interruption writes. */
  datatype State = State(ops: seq<Operation>, apps: map<string, AppState>)

  datatype Reply = Fine | Conflict | NotFound

  const INTERRUPTED := "deployment interrupted by service restart"

  const MAX_PERSISTED_ERROR := 4096
  const CUT := '\U{2026}'

  /** boundedError: what the store keeps of an error text. */
  function BoundedError(value: string): string {
    var t := TrimSpace(value);
    if |t| > MAX_PERSISTED_ERROR then t[..MAX_PERSISTED_ERROR] + [CUT] else t
  }

  /** A text without white space at its ends is kept, or its beginning if it is too long. */
  lemma ErrorIsKept(text: string)
    requires Trimmed(text)
    ensures |text| <= MAX_PERSISTED_ERROR ==> BoundedError(text) == text
    ensures |text| > MAX_PERSISTED_ERROR ==>
      |BoundedError(text)| == MAX_PERSISTED_ERROR + 1 && text[..MAX_PERSISTED_ERROR] <= BoundedError(text)
      && BoundedError(text)[MAX_PERSISTED_ERROR] == CUT
  {
    TrimSpaceKeeps(text);
  }

  /** Apart from the sign that marks a text as cut off, the store keeps nothing but a part of it. */
  lemma {:induction false} KeptOfText(text: string, part: string)
    requires !Contains(text, part) && CUT !in part
    ensures !Contains(BoundedError(text), part)
  {
    hide TrimSpace, Contains;
    var t := TrimSpace(text);
    if Contains(BoundedError(text), part) {
      if |t| > MAX_PERSISTED_ERROR {
        BeforeCut(t[..MAX_PERSISTED_ERROR], part);
        assert t[0..MAX_PERSISTED_ERROR] == t[..MAX_PERSISTED_ERROR];
        SliceContains(t, 0, MAX_PERSISTED_ERROR, part);
      }
      TrimmedContains(text, part);
    }
  }

  lemma BeforeCut(kept: string, part: string)
    requires Contains(kept + [CUT], part) && CUT !in part
    ensures Contains(kept, part)
  {
    var i :| 0 <= i <= |kept| + 1 && part <= (kept + [CUT])[i..];
    if part == "" {
      assert part <= kept[0..];
    } else {
      assert part[|part| - 1] in part && part[|part| - 1] == (kept + [CUT])[i..][|part| - 1];
      assert i + |part| <= |kept| && part <= kept[i..];
    }
  }

  // ---------------------------------------------------------------- what each call does to the rows

  predicate HasActive(ops: seq<Operation>, appID: string) {
    exists i | 0 <= i < |ops| :: ops[i].appID == appID && Active(ops[i].status)
  }

  predicate HasID(ops: seq<Operation>, id: string) {
    exists i | 0 <= i < |ops| :: ops[i].id == id
  }

  /** The claim's insert: the primary key and the partial unique index on active operations refuse it. The attempt
      number was read by an earlier statement. */
  function Claimed(ops: seq<Operation>, id: string, appID: string, kind: string, attempt: nat,
                   now: int): seq<Operation> {
    if HasID(ops, id) || HasActive(ops, appID) then ops
    else ops + [Operation(id, appID, kind, Preflighting, "", attempt, now, "", now, None, None)]
  }

  function Started(op: Operation, now: int): Operation {
    op.(heartbeatAt := now, startedAt := if op.startedAt.None? then Some(now) else op.startedAt)
  }

  function AdvancedRow(op: Operation, id: string, status: Status, now: int): Operation {
    if op.id == id && Active(op.status) then Started(op, now).(status := status) else op
  }

  function SteppedRow(op: Operation, id: string, step: string, now: int): Operation {
    if op.id == id && Active(op.status) then Started(op, now).(step := step) else op
  }

  function BeatRow(op: Operation, id: string, now: int): Operation {
    if op.id == id && Active(op.status) then op.(heartbeatAt := now) else op
  }

  function FinishedRow(op: Operation, id: string, status: Status, error: string, now: int): Operation {
    if op.id == id && Active(op.status)
    then op.(status := status, error := BoundedError(error), completedAt := Some(now)) else op
  }

  function InterruptedRow(op: Operation, now: int): Operation {
    if Active(op.status) then op.(status := Interrupted, error := INTERRUPTED, completedAt := Some(now)) else op
  }

  function Rows(ops: seq<Operation>, f: Operation -> Operation): seq<Operation> {
    seq(|ops|, i requires 0 <= i < |ops| => f(ops[i]))
  }

  function InterruptedApps(st: State): map<string, AppState> {
    map a | a in st.apps :: if HasActive(st.ops, a) then AppState(Failed, INTERRUPTED) else st.apps[a]
  }

  /** One call by any worker, CLI process or restart. A call that fails changes nothing. */
  datatype Action =
    | Claim(id: string, appID: string, kind: string, attempt: nat, now: int)
    | Advance(id: string, status: Status, now: int)
    | SetStep(id: string, step: string, now: int)
    | Heartbeat(id: string, now: int)
    | Finish(id: string, status: Status, error: string, now: int)
    | InterruptAll(now: int)

  function Apply(st: State, a: Action): State {
    match a
    case Claim(id, appID, kind, attempt, now) => st.(ops := Claimed(st.ops, id, appID, kind, attempt, now))
    case Advance(id, status, now) => st.(ops := Rows(st.ops, op => AdvancedRow(op, id, status, now)))
    case SetStep(id, step, now) => st.(ops := Rows(st.ops, op => SteppedRow(op, id, step, now)))
    case Heartbeat(id, now) => st.(ops := Rows(st.ops, op => BeatRow(op, id, now)))
    case Finish(id, status, error, now) => st.(ops := Rows(st.ops, op => FinishedRow(op, id, status, error, now)))
    case InterruptAll(now) => State(Rows(st.ops, op => InterruptedRow(op, now)), InterruptedApps(st))
  }

  function After(st: State, actions: seq<Action>): State
    decreases |actions|
  {
    if actions == [] then st else After(Apply(st, actions[0]), actions[1..])
  }

  // ---------------------------------------------------------------- the invariant

  /** Ids are unique, and an active operation is the last one its app inserted. */
  ghost predicate Inv(st: State) {
    && (forall i, j | 0 <= i < j < |st.ops| :: st.ops[i].id != st.ops[j].id)
    && (forall i, j | 0 <= i < j < |st.ops| && st.ops[i].appID == st.ops[j].appID :: !Active(st.ops[i].status))
  }

  ghost predicate AtMostOneActive(st: State) {
    forall i, j | 0 <= i < |st.ops| && 0 <= j < |st.ops| && st.ops[i].appID == st.ops[j].appID
                  && Active(st.ops[i].status) && Active(st.ops[j].status) :: i == j
  }

  /** Rows are only added; a row keeps its identity; a row that is no longer active keeps everything. */
  ghost predicate Grows(before: State, after: State) {
    && |before.ops| <= |after.ops|
    && forall i | 0 <= i < |before.ops| ::
         && after.ops[i].id == before.ops[i].id && after.ops[i].appID == before.ops[i].appID
         && after.ops[i].createdAt == before.ops[i].createdAt
         && (!Active(before.ops[i].status) ==> after.ops[i] == before.ops[i])
  }

  lemma StepKeepsInv(st: State, a: Action)
    requires Inv(st)
    ensures Inv(Apply(st, a)) && Grows(st, Apply(st, a))
  {
    var next := Apply(st, a);
    assert Grows(st, next);
    forall i, j | 0 <= i < j < |next.ops| && next.ops[i].appID == next.ops[j].appID
      ensures !Active(next.ops[i].status)
    {
      if j < |st.ops| {
        assert !Active(st.ops[i].status);
      } else {
        assert a.Claim? && !HasActive(st.ops, a.appID);
      }
    }
    forall i, j | 0 <= i < j < |next.ops| ensures next.ops[i].id != next.ops[j].id {
      if j == |st.ops| {
        assert a.Claim? && !HasID(st.ops, a.id);
      }
    }
  }

  /** Whatever workers, processes and restarts do, in any order: at most one active operation per app, and a
      terminal row stays exactly as it is. */
  lemma {:induction false} AnyInterleavingIsSafe(st: State, actions: seq<Action>)
    requires Inv(st)
    ensures Inv(After(st, actions)) && AtMostOneActive(After(st, actions)) && Grows(st, After(st, actions))
    decreases |actions|
  {
    if actions == [] {
      OneActive(st);
    } else {
      var next := Apply(st, actions[0]);
      StepKeepsInv(st, actions[0]);
      AnyInterleavingIsSafe(next, actions[1..]);
      var last := After(st, actions);
      forall i | 0 <= i < |st.ops|
        ensures last.ops[i].id == st.ops[i].id && last.ops[i].appID == st.ops[i].appID
        ensures last.ops[i].createdAt == st.ops[i].createdAt
        ensures !Active(st.ops[i].status) ==> last.ops[i] == st.ops[i]
      {
        assert next.ops[i].id == st.ops[i].id;
        assert last.ops[i].id == next.ops[i].id;
      }
    }
  }

  lemma OneActive(st: State)
    requires Inv(st)
    ensures AtMostOneActive(st)
  {
    forall i, j | 0 <= i < |st.ops| && 0 <= j < |st.ops| && st.ops[i].appID == st.ops[j].appID
                  && Active(st.ops[i].status) && Active(st.ops[j].status)
      ensures i == j
    {
    }
  }

  /** The first terminal status a run asks for is the one that stays, whatever is asked afterwards by anyone. */
  lemma FirstVerdictStays(st: State, k: nat, status: Status, error: string, now: int, later: seq<Action>)
    requires Inv(st) && k < |st.ops| && Active(st.ops[k].status) && !Active(status)
    ensures var end := After(Apply(st, Finish(st.ops[k].id, status, error, now)), later);
      |end.ops| > k && end.ops[k].status == status && end.ops[k].error == BoundedError(error)
  {
    var next := Apply(st, Finish(st.ops[k].id, status, error, now));
    StepKeepsInv(st, Finish(st.ops[k].id, status, error, now));
    AnyInterleavingIsSafe(next, later);
    assert next.ops[k].status == status;
  }

  // ---------------------------------------------------------------- what a row tells about its run

  /** The columns of an active row that calls write; the last one stands for the error text and the completion time. */
  datatype Column = StatusColumn | StepColumn | BeatColumn | StartColumn | EndColumn

  /** The call writes that column of the row with this id. */
  predicate Writes(a: Action, id: string, c: Column) {
    match a
    case Advance(i, _, _) => i == id && c in {StatusColumn, BeatColumn, StartColumn}
    case SetStep(i, _, _) => i == id && c in {StepColumn, BeatColumn, StartColumn}
    case Heartbeat(i, _) => i == id && c == BeatColumn
    case Finish(i, _, _, _) => i == id && c in {StatusColumn, EndColumn}
    case _ => false
  }

  predicate Last(actions: seq<Action>, id: string, c: Column, j: nat) {
    j < |actions| && Writes(actions[j], id, c) && forall m | j < m < |actions| :: !Writes(actions[m], id, c)
  }

  predicate First(actions: seq<Action>, id: string, c: Column, j: nat) {
    j < |actions| && Writes(actions[j], id, c) && forall m | 0 <= m < j :: !Writes(actions[m], id, c)
  }

  predicate Never(actions: seq<Action>, id: string, c: Column) {
    forall m | 0 <= m < |actions| :: !Writes(actions[m], id, c)
  }

  /** No call rewrites id, app, kind, attempt number and creation time. */
  predicate Rewritten(row: Operation, end: Operation) {
    end.id == row.id && end.appID == row.appID && end.kind == row.kind && end.attempt == row.attempt
    && end.createdAt == row.createdAt
  }

  function AskedStatus(a: Action): Status
    requires a.Advance? || a.Finish?
  {
    match a
    case Advance(_, status, _) => status
    case Finish(_, status, _, _) => status
  }

  /** What a row that is still active reads after some calls, whoever made them in between: the last status and step
      asked for, the time of the last sign of life, the time of the first step, and nothing else new. (A row can only be
      finished and still be active when it was finished with the status of an active one.) */
  ghost predicate Tells(row: Operation, actions: seq<Action>, end: Operation) {
    && Rewritten(row, end)
    && (Never(actions, row.id, StatusColumn) ==> end.status == row.status)
    && (forall j: nat | Last(actions, row.id, StatusColumn, j) :: end.status == AskedStatus(actions[j]))
    && (Never(actions, row.id, StepColumn) ==> end.step == row.step)
    && (forall j: nat | Last(actions, row.id, StepColumn, j) :: end.step == actions[j].step)
    && (Never(actions, row.id, BeatColumn) ==> end.heartbeatAt == row.heartbeatAt)
    && (forall j: nat | Last(actions, row.id, BeatColumn, j) :: end.heartbeatAt == actions[j].now)
    && (row.startedAt.Some? || Never(actions, row.id, StartColumn) ==> end.startedAt == row.startedAt)
    && (forall j: nat | row.startedAt.None? && First(actions, row.id, StartColumn, j) ::
          end.startedAt == Some(actions[j].now))
    && (Never(actions, row.id, EndColumn) ==> end.error == row.error && end.completedAt == row.completedAt)
    && (forall j: nat | Last(actions, row.id, EndColumn, j) ::
          end.error == BoundedError(actions[j].error) && end.completedAt == Some(actions[j].now))
  }

  lemma {:induction false} ActiveRowTells(st: State, k: nat, actions: seq<Action>)
    requires Inv(st) && k < |st.ops|
    ensures k < |After(st, actions).ops|
    ensures Active(After(st, actions).ops[k].status) ==> Tells(st.ops[k], actions, After(st, actions).ops[k])
    decreases |actions|
  {
    hide Inv, Apply, Tells;
    if actions == [] {
      TellsNothing(st.ops[k], actions);
    } else {
      var next := Apply(st, actions[0]);
      StepKeepsInv(st, actions[0]);
      ActiveRowTells(next, k, actions[1..]);
      if Active(After(st, actions).ops[k].status) {
        AnyInterleavingIsSafe(next, actions[1..]);
        OneStepTells(st, k, actions[0]);
        TellsMore(st.ops[k], actions, next.ops[k], After(st, actions).ops[k]);
      }
    }
  }

  /** From its claim on: an operation begins in preflight with no step, no start and no error, and as long as it is
      active it reads what its own calls wrote last, whatever is done to other operations. */
  lemma ClaimedRowTells(st: State, id: string, appID: string, kind: string, attempt: nat, now: int,
                        actions: seq<Action>)
    requires Inv(st) && !HasID(st.ops, id) && !HasActive(st.ops, appID)
    ensures var end := After(Apply(st, Claim(id, appID, kind, attempt, now)), actions);
      && |st.ops| < |end.ops|
      && (Active(end.ops[|st.ops|].status) ==>
            Tells(Operation(id, appID, kind, Preflighting, "", attempt, now, "", now, None, None), actions,
                  end.ops[|st.ops|]))
  {
    hide Tells, After;
    StepKeepsInv(st, Claim(id, appID, kind, attempt, now));
    ActiveRowTells(Apply(st, Claim(id, appID, kind, attempt, now)), |st.ops|, actions);
  }

  lemma TellsNothing(row: Operation, actions: seq<Action>)
    requires actions == []
    ensures Tells(row, actions, row)
  {
  }

  /** One call on an active row that leaves it active. */
  ghost predicate StepTells(row: Operation, a: Action, end: Operation) {
    && Rewritten(row, end)
    && end.status == (if Writes(a, row.id, StatusColumn) then AskedStatus(a) else row.status)
    && end.step == (if Writes(a, row.id, StepColumn) then a.step else row.step)
    && end.heartbeatAt == (if Writes(a, row.id, BeatColumn) then a.now else row.heartbeatAt)
    && end.startedAt == (if row.startedAt.None? && Writes(a, row.id, StartColumn) then Some(a.now) else row.startedAt)
    && end.error == (if Writes(a, row.id, EndColumn) then BoundedError(a.error) else row.error)
    && end.completedAt == (if Writes(a, row.id, EndColumn) then Some(a.now) else row.completedAt)
  }

  lemma OneStepTells(st: State, k: nat, a: Action)
    requires k < |st.ops| && k < |Apply(st, a).ops| && Active(Apply(st, a).ops[k].status)
    requires Active(st.ops[k].status)
    ensures StepTells(st.ops[k], a, Apply(st, a).ops[k])
  {
  }

  lemma TellsMore(row: Operation, actions: seq<Action>, next: Operation, end: Operation)
    requires actions != [] && StepTells(row, actions[0], next) && Tells(next, actions[1..], end)
    ensures Tells(row, actions, end)
  {
    hide Never, BoundedError;
    Later(actions, row.id, StatusColumn);
    Later(actions, row.id, StepColumn);
    Later(actions, row.id, BeatColumn);
    Later(actions, row.id, StartColumn);
    Later(actions, row.id, EndColumn);
    assert forall m | 0 <= m < |actions[1..]| :: actions[1..][m] == actions[m + 1];
    assert next.id == row.id;
  }

  /** Which call comes first or last is decided by the first call and by the rest. */
  lemma Later(actions: seq<Action>, id: string, c: Column)
    requires actions != []
    ensures Never(actions, id, c) ==> !Writes(actions[0], id, c) && Never(actions[1..], id, c)
    ensures forall j: nat | Last(actions, id, c, j) ::
      if j == 0 then Writes(actions[0], id, c) && Never(actions[1..], id, c) else Last(actions[1..], id, c, j - 1)
    ensures forall j: nat | First(actions, id, c, j) ::
      if j == 0 then Writes(actions[0], id, c) else !Writes(actions[0], id, c) && First(actions[1..], id, c, j - 1)
  {
    hide Writes;
    assert forall m | 0 <= m < |actions[1..]| :: actions[1..][m] == actions[m + 1];
    forall j: nat | Last(actions, id, c, j)
      ensures if j == 0 then Writes(actions[0], id, c) && Never(actions[1..], id, c)
              else Last(actions[1..], id, c, j - 1)
    {
    }
  }

  // ---------------------------------------------------------------- the newest operation

  /** (created_at, rowid) order. */
  predicate NotNewer(ops: seq<Operation>, i: nat, k: nat)
    requires i < |ops| && k < |ops|
  {
    ops[i].createdAt < ops[k].createdAt || (ops[i].createdAt == ops[k].createdAt && i <= k)
  }

  /** Row k is what ListOperations returns first for the app. */
  ghost predicate IsNewest(ops: seq<Operation>, appID: string, k: nat) {
    && k < |ops| && ops[k].appID == appID
    && forall i: nat | i < |ops| && ops[i].appID == appID :: NotNewer(ops, i, k)
  }

  lemma NewestIsUnique(ops: seq<Operation>, appID: string, j: nat, k: nat)
    requires IsNewest(ops, appID, j) && IsNewest(ops, appID, k)
    ensures j == k
  {
    assert NotNewer(ops, j, k) && NotNewer(ops, k, j);
  }

  /** No earlier operation of the app carries a later creation time than row k. */
  ghost predicate ClockHeld(ops: seq<Operation>, k: nat)
    requires k < |ops|
  {
    forall i | 0 <= i < k && ops[i].appID == ops[k].appID :: ops[i].createdAt <= ops[k].createdAt
  }

  /** An active operation is its app's newest exactly when the clock did not run backwards between the app's
      claims. */
  lemma ActiveIsNewest(st: State, k: nat)
    requires Inv(st) && k < |st.ops| && Active(st.ops[k].status)
    ensures IsNewest(st.ops, st.ops[k].appID, k) <==> ClockHeld(st.ops, k)
  {
    assert forall i | k < i < |st.ops| :: st.ops[i].appID != st.ops[k].appID;
    if IsNewest(st.ops, st.ops[k].appID, k) {
      forall i | 0 <= i < k && st.ops[i].appID == st.ops[k].appID
        ensures st.ops[i].createdAt <= st.ops[k].createdAt
      {
        assert NotNewer(st.ops, i, k);
      }
    }
  }

  /** When every claim is stamped no earlier than the rows already there, the clock held for every row. */
  ghost predicate Stamped(st: State, actions: seq<Action>)
    decreases |actions|
  {
    actions != [] ==>
      && (actions[0].Claim? ==> forall i | 0 <= i < |st.ops| :: st.ops[i].createdAt <= actions[0].now)
      && Stamped(Apply(st, actions[0]), actions[1..])
  }

  ghost predicate ClockHeldThroughout(st: State) {
    forall k: nat | k < |st.ops| :: ClockHeld(st.ops, k)
  }

  lemma {:induction false} StampedRunsAreOrdered(st: State, actions: seq<Action>)
    requires Inv(st) && ClockHeldThroughout(st) && Stamped(st, actions)
    ensures ClockHeldThroughout(After(st, actions))
    decreases |actions|
  {
    if actions != [] {
      var next := Apply(st, actions[0]);
      StepKeepsInv(st, actions[0]);
      forall k: nat | k < |next.ops| ensures ClockHeld(next.ops, k) {
        if k < |st.ops| {
          assert ClockHeld(st.ops, k);
          forall i | 0 <= i < k && next.ops[i].appID == next.ops[k].appID
            ensures next.ops[i].createdAt <= next.ops[k].createdAt
          {
            assert next.ops[i].createdAt == st.ops[i].createdAt && next.ops[k].createdAt == st.ops[k].createdAt;
          }
        }
      }
      StampedRunsAreOrdered(next, actions[1..]);
    }
  }

  predicate Unrecovered(status: Status) {
    status in {OpFailed, Interrupted, RollbackFailed}
  }

  /** A restart after any run: the operation that was cut off is the app's newest, reads "interrupted", and the
      app row reads "error". */
  lemma CrashIsVisible(st: State, k: nat, now: int)
    requires Inv(st) && k < |st.ops| && Active(st.ops[k].status) && ClockHeld(st.ops, k)
    ensures var end := Apply(st, InterruptAll(now));
      && IsNewest(end.ops, st.ops[k].appID, k) && Unrecovered(end.ops[k].status)
      && (st.ops[k].appID in st.apps ==> end.apps[st.ops[k].appID].status == Failed)
  {
    ActiveIsNewest(st, k);
    var end := Apply(st, InterruptAll(now));
    forall i: nat | i < |end.ops| && end.ops[i].appID == st.ops[k].appID ensures NotNewer(end.ops, i, k) {
      assert NotNewer(st.ops, i, k);
    }
    assert HasActive(st.ops, st.ops[k].appID);
  }

  lemma FourSteps(st: State, a: Action, b: Action, c: Action, d: Action)
    ensures After(st, [a, b, c, d]) == Apply(Apply(Apply(Apply(st, a), b), c), d)
  {
    hide Apply;
    assert [a, b, c, d][1..] == [b, c, d] && [b, c, d][1..] == [c, d] && [c, d][1..] == [d] && [d][1..] == [];
    var third := Apply(Apply(Apply(st, a), b), c);
    assert After(third, [d]) == After(Apply(third, d), [d][1..]) == Apply(third, d);
    assert After(Apply(Apply(st, a), b), [c, d]) == After(third, [d]);
  }

  /** The clock matters: an app whose last successful operation is stamped later than the one that was cut off
      does not look cut off. */
  lemma BackwardClockHidesCrash() returns (actions: seq<Action>, st: State, now: int)
    ensures st == After(State([], map[]), actions) && Inv(st) && HasActive(st.ops, "app")
    ensures var end := Apply(st, InterruptAll(now));
      |end.ops| > 0 && IsNewest(end.ops, "app", 0) && !Unrecovered(end.ops[0].status)
  {
    var empty := State([], map[]);
    var claim, finish := Claim("a", "app", "update", 1, 100), Finish("a", Completed, "", 101);
    var again, build := Claim("b", "app", "update", 2, 50), Advance("b", Building, 51);
    actions, now := [claim, finish, again, build], 60;
    st := After(empty, actions);
    AnyInterleavingIsSafe(empty, actions);
    FourSteps(empty, claim, finish, again, build);
    var done := Apply(Apply(empty, claim), finish);
    FirstSucceeds(empty, done);
    hide Inv, After;
    SecondIsCutOff(done, st);
  }

  lemma FirstSucceeds(empty: State, done: State)
    requires empty == State([], map[])
    requires done == Apply(Apply(empty, Claim("a", "app", "update", 1, 100)), Finish("a", Completed, "", 101))
    ensures |done.ops| == 1 && done.ops[0].id == "a" && done.ops[0].appID == "app"
    ensures done.ops[0].status == Completed && done.ops[0].createdAt == 100
  {
  }

  lemma SecondIsCutOff(done: State, st: State)
    requires |done.ops| == 1 && done.ops[0].id == "a" && done.ops[0].appID == "app"
    requires done.ops[0].status == Completed && done.ops[0].createdAt == 100
    requires st == Apply(Apply(done, Claim("b", "app", "update", 2, 50)), Advance("b", Building, 51))
    ensures HasActive(st.ops, "app")
    ensures var end := Apply(st, InterruptAll(60));
      |end.ops| > 0 && IsNewest(end.ops, "app", 0) && !Unrecovered(end.ops[0].status)
  {
    assert "a"[0] != "b"[0];
    assert |st.ops| == 2 && st.ops[0] == done.ops[0] && st.ops[1].appID == "app" && Active(st.ops[1].status);
    assert st.ops[1].createdAt == 50;
  }

  // ---------------------------------------------------------------- the store

  lemma InterruptionIsComplete(before: State, now: int, after: State, done: set<nat>, hit: set<string>)
    requires |after.ops| == |before.ops| && after.apps.Keys == before.apps.Keys
    requires forall i | i in done :: i < |before.ops|
    requires forall i: nat | i < |before.ops| && Active(before.ops[i].status) :: i in done && before.ops[i].appID in hit
    requires forall i: nat | i < |after.ops| ::
      after.ops[i] == if i in done then InterruptedRow(before.ops[i], now) else before.ops[i]
    requires forall a | a in hit :: HasActive(before.ops, a)
    requires forall a | a in after.apps ::
      after.apps[a] == if a in hit then AppState(Failed, INTERRUPTED) else before.apps[a]
    ensures after == Apply(before, InterruptAll(now))
  {
    var end := Apply(before, InterruptAll(now));
    assert after.ops == end.ops;
    forall a | a in after.apps ensures after.apps[a] == end.apps[a] {
      if HasActive(before.ops, a) {
        var i :| 0 <= i < |before.ops| && before.ops[i].appID == a && Active(before.ops[i].status);
        assert a in hit;
      }
    }
  }

  lemma ShowsActive(ops: seq<Operation>, i: nat)
    requires i < |ops| && Active(ops[i].status)
    ensures HasActive(ops, ops[i].appID)
  {
  }

  class OperationStore {
    var ops: seq<Operation>
    var apps: map<string, AppState>

    constructor ()
      ensures Value() == State([], map[])
    {
      ops, apps := [], map[];
    }

    ghost function Value(): State
      reads this
    {
      State(ops, apps)
    }

    /** The call reaches this row: it is the one named, and still active. */
    predicate Reached(op: Operation, id: string) {
      op.id == id && Active(op.status)
    }

    /** Claiming reads the highest attempt and inserts. */
    method ClaimOperation(id: string, appID: string, kind: string, now: int) returns (reply: Reply, attempt: nat)
      modifies this`ops
      ensures reply == if old(HasID(ops, id) || HasActive(ops, appID)) then Conflict else Fine
      ensures Value() == Apply(old(Value()), Claim(id, appID, kind, attempt, now))
      ensures forall i | 0 <= i < |old(ops)| && old(ops)[i].appID == appID :: old(ops)[i].attempt < attempt
      ensures reply.Fine? ==> ops[..|old(ops)|] == old(ops) && |ops| == |old(ops)| + 1
      ensures reply.Fine? ==>
        var op := ops[|old(ops)|];
        && op.id == id && op.appID == appID && op.kind == kind && op.attempt == attempt
        && op.status == Preflighting && op.step == "" && op.error == ""
        && op.createdAt == op.heartbeatAt == now && op.startedAt == op.completedAt == None
    {
      attempt := 1;
      for i := 0 to |ops|
        invariant attempt >= 1
        invariant forall j | 0 <= j < i && ops[j].appID == appID :: ops[j].attempt < attempt
      {
        if ops[i].appID == appID && ops[i].attempt >= attempt {
          attempt := ops[i].attempt + 1;
        }
      }
      if HasID(ops, id) || HasActive(ops, appID) {
        return Conflict, attempt;
      }
      ops := ops + [Operation(id, appID, kind, Preflighting, "", attempt, now, "", now, None, None)];
      reply := Fine;
    }

    method SetOperationStatus(id: string, status: Status, now: int) returns (reply: Reply)
      modifies this`ops
      ensures Value() == Apply(old(Value()), Advance(id, status, now))
      ensures reply == if exists i | 0 <= i < |old(ops)| :: old(ops)[i].id == id && Active(old(ops)[i].status)
                       then Fine else NotFound
      ensures |ops| == |old(ops)| && forall i | 0 <= i < |ops| && !Reached(old(ops)[i], id) :: ops[i] == old(ops)[i]
      ensures forall i | 0 <= i < |ops| && Reached(old(ops)[i], id) ::
        && ops[i].status == status && ops[i].heartbeatAt == now
        && ops[i].startedAt == (if old(ops)[i].startedAt.None? then Some(now) else old(ops)[i].startedAt)
        && Rewritten(old(ops)[i], ops[i]) && ops[i].step == old(ops)[i].step
        && ops[i].error == old(ops)[i].error && ops[i].completedAt == old(ops)[i].completedAt
    {
      reply := if exists i | 0 <= i < |ops| :: ops[i].id == id && Active(ops[i].status) then Fine else NotFound;
      ops := Rows(ops, op => AdvancedRow(op, id, status, now));
    }

    method SetOperationStep(id: string, step: string, now: int) returns (reply: Reply)
      modifies this`ops
      ensures Value() == Apply(old(Value()), SetStep(id, step, now))
      ensures reply == if exists i | 0 <= i < |old(ops)| :: old(ops)[i].id == id && Active(old(ops)[i].status)
                       then Fine else NotFound
      ensures |ops| == |old(ops)| && forall i | 0 <= i < |ops| && !Reached(old(ops)[i], id) :: ops[i] == old(ops)[i]
      ensures forall i | 0 <= i < |ops| && Reached(old(ops)[i], id) ::
        && ops[i].step == step && ops[i].heartbeatAt == now
        && ops[i].startedAt == (if old(ops)[i].startedAt.None? then Some(now) else old(ops)[i].startedAt)
        && Rewritten(old(ops)[i], ops[i]) && ops[i].status == old(ops)[i].status
        && ops[i].error == old(ops)[i].error && ops[i].completedAt == old(ops)[i].completedAt
    {
      reply := if exists i | 0 <= i < |ops| :: ops[i].id == id && Active(ops[i].status) then Fine else NotFound;
      ops := Rows(ops, op => SteppedRow(op, id, step, now));
    }

    method HeartbeatOperation(id: string, now: int) returns (reply: Reply)
      modifies this`ops
      ensures Value() == Apply(old(Value()), Heartbeat(id, now))
      ensures reply == if exists i | 0 <= i < |old(ops)| :: old(ops)[i].id == id && Active(old(ops)[i].status)
                       then Fine else NotFound
      ensures |ops| == |old(ops)| && forall i | 0 <= i < |ops| && !Reached(old(ops)[i], id) :: ops[i] == old(ops)[i]
      ensures forall i | 0 <= i < |ops| && Reached(old(ops)[i], id) ::
        && ops[i].heartbeatAt == now && Rewritten(old(ops)[i], ops[i])
        && ops[i].status == old(ops)[i].status && ops[i].step == old(ops)[i].step
        && ops[i].startedAt == old(ops)[i].startedAt
        && ops[i].error == old(ops)[i].error && ops[i].completedAt == old(ops)[i].completedAt
    {
      reply := if exists i | 0 <= i < |ops| :: ops[i].id == id && Active(ops[i].status) then Fine else NotFound;
      ops := Rows(ops, op => BeatRow(op, id, now));
    }

    /** Finishing twice is no error; only an unknown id is. */
    method FinishOperation(id: string, status: Status, error: string, now: int) returns (reply: Reply)
      modifies this`ops
      ensures Value() == Apply(old(Value()), Finish(id, status, error, now))
      ensures reply == if old(HasID(ops, id)) then Fine else NotFound
      ensures |ops| == |old(ops)| && forall i | 0 <= i < |ops| && !Reached(old(ops)[i], id) :: ops[i] == old(ops)[i]
      ensures forall i | 0 <= i < |ops| && Reached(old(ops)[i], id) ::
        && ops[i].status == status && ops[i].error == BoundedError(error) && ops[i].completedAt == Some(now)
        && Rewritten(old(ops)[i], ops[i]) && ops[i].step == old(ops)[i].step
        && ops[i].heartbeatAt == old(ops)[i].heartbeatAt && ops[i].startedAt == old(ops)[i].startedAt
    {
      reply := if HasID(ops, id) then Fine else NotFound;
      ops := Rows(ops, op => FinishedRow(op, id, status, error, now));
    }

    /** Collects the active rows, then updates each of them and its app. */
    method InterruptActiveOperations(now: int)
      requires Inv(Value())
      modifies this`ops, this`apps
      ensures Value() == Apply(old(Value()), InterruptAll(now))
      ensures |ops| == |old(ops)| && apps.Keys == old(apps.Keys)
      ensures forall i | 0 <= i < |ops| && !Active(old(ops)[i].status) :: ops[i] == old(ops)[i]
      ensures forall i | 0 <= i < |ops| && Active(old(ops)[i].status) ::
        && ops[i].status == Interrupted && ops[i].error == INTERRUPTED && ops[i].completedAt == Some(now)
        && Rewritten(old(ops)[i], ops[i]) && ops[i].step == old(ops)[i].step
        && ops[i].heartbeatAt == old(ops)[i].heartbeatAt && ops[i].startedAt == old(ops)[i].startedAt
      ensures forall a | a in apps ::
        apps[a] == if old(HasActive(ops, a)) then AppState(Failed, INTERRUPTED) else old(apps)[a]
    {
      hide Inv, HasActive;
      var jobs: seq<nat> := [];
      for i := 0 to |ops|
        invariant forall j | 0 <= j < |jobs| :: jobs[j] < i && Active(ops[jobs[j]].status)
        invariant forall j: nat | j < i && Active(ops[j].status) :: j in jobs
      {
        if Active(ops[i].status) {
          jobs := jobs + [i];
        }
      }
      ghost var before := Value();
      ghost var done: set<nat> := {};
      ghost var hit: set<string> := {};
      for n := 0 to |jobs|
        invariant |ops| == |before.ops| && apps.Keys == before.apps.Keys
        invariant forall j | 0 <= j < n :: jobs[j] in done && before.ops[jobs[j]].appID in hit
        invariant forall i | i in done :: i < |ops| && Active(before.ops[i].status)
        invariant forall a | a in hit :: HasActive(before.ops, a)
        invariant forall i: nat | i < |ops| ::
          ops[i] == if i in done then InterruptedRow(before.ops[i], now) else before.ops[i]
        invariant forall a | a in apps :: apps[a] == if a in hit then AppState(Failed, INTERRUPTED) else before.apps[a]
      {
        var job := jobs[n];
        ops := ops[job := ops[job].(status := Interrupted, error := INTERRUPTED, completedAt := Some(now))];
        var a := ops[job].appID;
        if a in apps {
          apps := apps[a := AppState(Failed, INTERRUPTED)];
        }
        ShowsActive(before.ops, job);
        done, hit := done + {job}, hit + {a};
      }
      InterruptionIsComplete(before, now, Value(), done, hit);
    }

    /** The first row of ListOperations. */
    method NewestOperation(appID: string) returns (newest: Option<nat>)
      ensures newest.None? <==> forall i | 0 <= i < |ops| :: ops[i].appID != appID
      ensures newest.Some? ==> IsNewest(ops, appID, newest.value)
    {
      newest := None;
      for i := 0 to |ops|
        invariant newest.None? <==> forall j | 0 <= j < i :: ops[j].appID != appID
        invariant newest.Some? ==> newest.value < i && ops[newest.value].appID == appID
        invariant newest.Some? ==> forall j: nat | j < i && ops[j].appID == appID :: NotNewer(ops, j, newest.value)
      {
        if ops[i].appID == appID && (newest.None? || ops[newest.value].createdAt <= ops[i].createdAt) {
          newest := Some(i);
        }
      }
    }

    /** ActiveOperation: the newest active row of the app, which is the only one. */
    method ActiveOperation(appID: string) returns (active: Option<nat>)
      ensures active.None? <==> !HasActive(ops, appID)
      ensures active.Some? ==>
        active.value < |ops| && ops[active.value].appID == appID && Active(ops[active.value].status)
      ensures active.Some? ==>
        forall i: nat | i < |ops| && ops[i].appID == appID && Active(ops[i].status) :: NotNewer(ops, i, active.value)
      ensures active.Some? && Inv(Value()) ==>
        forall i | 0 <= i < |ops| && ops[i].appID == appID && Active(ops[i].status) :: i == active.value
    {
      active := None;
      for i := 0 to |ops|
        invariant active.None? <==> forall j | 0 <= j < i :: !(ops[j].appID == appID && Active(ops[j].status))
        invariant active.Some? ==>
          active.value < i && ops[active.value].appID == appID && Active(ops[active.value].status)
        invariant active.Some? ==>
          forall j: nat | j < i && ops[j].appID == appID && Active(ops[j].status) :: NotNewer(ops, j, active.value)
      {
        if ops[i].appID == appID && Active(ops[i].status)
           && (active.None? || ops[active.value].createdAt <= ops[i].createdAt) {
          active := Some(i);
        }
      }
      if Inv(Value()) {
        OneActive(Value());
      }
    }
  }
}

/**
 The token budget manager: per-session totals and per-task caps. `book` is the table of sessions
 as values; the invariants are about any sequence of checks, consumptions and resets.
 */
module Budget {
  import opened Basics

  datatype TaskType = Triage | Diagnostic | Planning | Remediation | Report | Patrol | AlertCorrelation

  datatype TaskBudget = TaskBudget(perCall: int, perSession: int, allowDowngrade: bool)

  /** `DivisionByZero` is the exception the usage rate raises for a session cap of zero. */
  datatype BudgetAction = Allow | Compress | Downgrade | Reject | DivisionByZero

  datatype Session = Session(total: int, used: int, usage: map<TaskType, int>, calls: nat)

  type Book = map<string, Session>

  datatype Config = Config(sessionBudget: int, tasks: map<TaskType, TaskBudget>)

  const DEFAULT_BUDGETS := map[
    Triage := TaskBudget(2000, 5000, true), Diagnostic := TaskBudget(8000, 40000, true),
    Planning := TaskBudget(6000, 15000, true), Remediation := TaskBudget(4000, 10000, true),
    Report := TaskBudget(6000, 10000, true), Patrol := TaskBudget(3000, 8000, true),
    AlertCorrelation := TaskBudget(6000, 15000, true)]

  // ---------------------------------------------------------------- decisions

  function UsageOf(s: Session, task: TaskType): int { if task in s.usage then s.usage[task] else 0 }

  function Remaining(s: Session): int { if s.total - s.used > 0 then s.total - s.used else 0 }

  function Decide(c: Config, s: Session, task: TaskType, estimate: int): BudgetAction {
    if Remaining(s) < estimate then Reject
    else if task !in c.tasks then Allow
    else
      var b := c.tasks[task];
      if b.perSession - UsageOf(s, task) < estimate then if b.allowDowngrade then Downgrade else Reject
      else if estimate > b.perCall then Compress
      else if b.perSession == 0 then DivisionByZero
      else Allow
  }

  function Severity(a: BudgetAction): nat {
    match a
    case Allow => 0
    case DivisionByZero => 0
    case Compress => 1
    case Downgrade => 2
    case Reject => 3
  }

  /** Asking for more, or asking after more was used, never gets a milder answer. */
  lemma DecisionsOnlyHarden(c: Config, s: Session, s': Session, task: TaskType, estimate: int, estimate': int)
    requires s.total == s'.total && s.used <= s'.used && UsageOf(s, task) <= UsageOf(s', task) && estimate <= estimate'
    ensures Severity(Decide(c, s, task, estimate)) <= Severity(Decide(c, s', task, estimate'))
  {}

  // ---------------------------------------------------------------- operations

  datatype Op =
    | Check(id: string, task: TaskType, estimate: int)
    | Consume(id: string, task: TaskType, actual: int)
    | Reset(id: string)

  function SessionOf(c: Config, book: Book, id: string): Session {
    if id in book then book[id] else Session(c.sessionBudget, 0, map[], 0)
  }

  function Spend(s: Session, task: TaskType, actual: int): Session {
    Session(s.total, s.used + actual, s.usage[task := UsageOf(s, task) + actual], s.calls + 1)
  }

  function Apply(c: Config, book: Book, op: Op): Book {
    match op
    case Check(id, _, _) => book[id := SessionOf(c, book, id)]
    case Consume(id, task, actual) => book[id := Spend(SessionOf(c, book, id), task, actual)]
    case Reset(id) => book - {id}
  }

  function After(c: Config, ops: seq<Op>): Book {
    if ops == [] then map[] else Apply(c, After(c, ops[..|ops| - 1]), ops[|ops| - 1])
  }

  lemma AfterStep(c: Config, ops: seq<Op>, op: Op)
    ensures After(c, ops + [op]) == Apply(c, After(c, ops), op)
  {
    assert (ops + [op])[..|ops|] == ops;
  }

  class SessionBudget {
    ghost const owner: string
    const total: int
    var used: int
    var usage: map<TaskType, int>
    var calls: nat

    constructor (ghost owner: string, total: int)
      ensures this.owner == owner && View() == Session(total, 0, map[], 0)
    {
      this.owner, this.total, used, usage, calls := owner, total, 0, map[], 0;
    }

    ghost function View(): Session
      reads this
    {
      Session(total, used, usage, calls)
    }

    method Add(task: TaskType, actual: int)
      modifies this
      ensures View() == Spend(old(View()), task, actual)
    {
      used := used + actual;
      calls := calls + 1;
      usage := usage[task := (if task in usage then usage[task] else 0) + actual];
    }
  }

  /** Each session is an object of its own, known by its owner, and holds what the book says. */
  ghost predicate Keeping(sessions: map<string, SessionBudget>, book: Book)
    reads sessions.Values
  {
    && (forall id :: id in sessions <==> id in book)
    && forall id :: id in sessions ==> sessions[id].owner == id && sessions[id].View() == book[id]
  }

  lemma ConsumeMeans(cfg: Config, book: Book, id: string, task: TaskType, actual: int)
    ensures var held := book[id := SessionOf(cfg, book, id)];
            held[id := Spend(held[id], task, actual)] == Apply(cfg, book, Op.Consume(id, task, actual))
  {}

  class TokenBudgetManager {
    const sessionBudget: int
    const taskBudgets: map<TaskType, TaskBudget>
    var sessions: map<string, SessionBudget>
    ghost var book: Book

    ghost predicate Valid()
      reads this, sessions.Values
    {
      Keeping(sessions, book)
    }

    ghost function Cfg(): Config { Config(sessionBudget, taskBudgets) }

    constructor (sessionBudget: int, taskBudgets: map<TaskType, TaskBudget>)
      ensures Valid() && book == map[]
      ensures Cfg() == Config(sessionBudget, if taskBudgets == map[] then DEFAULT_BUDGETS else taskBudgets)
    {
      this.sessionBudget := sessionBudget;
      this.taskBudgets := if taskBudgets == map[] then DEFAULT_BUDGETS else taskBudgets;
      sessions, book := map[], map[];
    }

    method GetOrCreateSession(id: string) returns (s: SessionBudget)
      requires Valid()
      modifies this
      ensures Valid() && id in sessions && sessions[id] == s
      ensures sessions == old(sessions)[id := s]
      ensures fresh(s) || (id in old(sessions) && s == old(sessions)[id])
      ensures book == old(book)[id := SessionOf(Cfg(), old(book), id)]
    {
      if id in sessions {
        s := sessions[id];
      } else {
        s := new SessionBudget(id, sessionBudget);
        sessions := sessions[id := s];
      }
      book := book[id := SessionOf(Cfg(), book, id)];
    }

    method CheckBudget(id: string, task: TaskType, estimate: int) returns (answer: BudgetAction)
      requires Valid()
      modifies this
      ensures Valid() && book == Apply(Cfg(), old(book), Check(id, task, estimate))
      ensures answer == Decide(Cfg(), SessionOf(Cfg(), old(book), id), task, estimate)
    {
      var session := GetOrCreateSession(id);
      answer := Judge(session, task, estimate);
    }

    method Judge(session: SessionBudget, task: TaskType, estimate: int) returns (answer: BudgetAction)
      ensures answer == Decide(Cfg(), session.View(), task, estimate)
    {
      var left := session.total - session.used;
      if (if left > 0 then left else 0) < estimate { return Reject; }
      if task in taskBudgets {
        var budget := taskBudgets[task];
        var taskUsed := if task in session.usage then session.usage[task] else 0;
        if budget.perSession - taskUsed < estimate {
          return if budget.allowDowngrade then Downgrade else Reject;
        }
        if estimate > budget.perCall { return Compress; }
        if budget.perSession == 0 { return DivisionByZero; }
      }
      return Allow;
    }

    method Consume(id: string, task: TaskType, actual: int)
      requires Valid()
      modifies this, sessions.Values
      ensures Valid() && book == Apply(Cfg(), old(book), Op.Consume(id, task, actual))
    {
      ConsumeMeans(Cfg(), book, id, task, actual);
      var session := GetOrCreateSession(id);
      assert fresh(session) || session in old(sessions).Values;
      Charge(session, id, task, actual);
    }

    method Charge(session: SessionBudget, id: string, task: TaskType, actual: int)
      requires Valid() && id in sessions && sessions[id] == session
      modifies this`book, session
      ensures Valid() && book == old(book)[id := Spend(old(book)[id], task, actual)]
    {
      session.Add(task, actual);
      book := book[id := Spend(book[id], task, actual)];
    }

    method ResetSession(id: string)
      requires Valid()
      modifies this
      ensures Valid() && book == Apply(Cfg(), old(book), Reset(id))
    {
      if id in sessions { sessions := sessions - {id}; }
      book := book - {id};
    }
  }

  // ---------------------------------------------------------------- the book is its history

  /** What was consumed by a session since it was last reset, in all or for one task. */
  function SpentBy(ops: seq<Op>, id: string): int {
    if ops == [] then 0
    else
      var op := ops[|ops| - 1];
      if op == Reset(id) then 0
      else SpentBy(ops[..|ops| - 1], id) + if op.Consume? && op.id == id then op.actual else 0
  }

  function SpentOn(ops: seq<Op>, id: string, task: TaskType): int {
    if ops == [] then 0
    else
      var op := ops[|ops| - 1];
      if op == Reset(id) then 0
      else SpentOn(ops[..|ops| - 1], id, task) + if op.Consume? && op.id == id && op.task == task then op.actual else 0
  }

  const ALL_TASKS := [Triage, Diagnostic, Planning, Remediation, Report, Patrol, AlertCorrelation]

  function SumOver(s: Session, tasks: seq<TaskType>): int {
    if tasks == [] then 0 else UsageOf(s, tasks[0]) + SumOver(s, tasks[1..])
  }

  function Tally(s: Session): int { SumOver(s, ALL_TASKS) }

  lemma {:induction false} SpendSum(s: Session, task: TaskType, actual: int, tasks: seq<TaskType>)
    requires forall i, j :: 0 <= i < j < |tasks| ==> tasks[i] != tasks[j]
    ensures SumOver(Spend(s, task, actual), tasks) == SumOver(s, tasks) + if task in tasks then actual else 0
  {
    if tasks != [] {
      SpendSum(s, task, actual, tasks[1..]);
      assert task in tasks <==> task == tasks[0] || task in tasks[1..];
    }
  }

  lemma {:induction false} NothingUsed(s: Session, tasks: seq<TaskType>)
    requires s.usage == map[]
    ensures SumOver(s, tasks) == 0
  {
    if tasks != [] { NothingUsed(s, tasks[1..]); }
  }

  /** How often. */
  function CallsBy(ops: seq<Op>, id: string): nat {
    if ops == [] then 0
    else
      var op := ops[|ops| - 1];
      if op == Reset(id) then 0
      else CallsBy(ops[..|ops| - 1], id) + if op.Consume? && op.id == id then 1 else 0
  }

  ghost predicate Faithful(c: Config, ops: seq<Op>, id: string) {
    var s := SessionOf(c, After(c, ops), id);
    && s.total == c.sessionBudget && s.used == SpentBy(ops, id) && s.used == Tally(s) && s.calls == CallsBy(ops, id)
    && forall task :: UsageOf(s, task) == SpentOn(ops, id, task)
  }

  lemma SpentStep(ops: seq<Op>, op: Op, id: string)
    ensures SpentBy(ops + [op], id)
            == if op == Reset(id) then 0 else SpentBy(ops, id) + if op.Consume? && op.id == id then op.actual else 0
    ensures forall task :: SpentOn(ops + [op], id, task)
                           == if op == Reset(id) then 0
                              else SpentOn(ops, id, task) + if op.Consume? && op.id == id && op.task == task then op.actual else 0
  {
    assert (ops + [op])[..|ops|] == ops;
  }

  /** How one operation changes one session. */
  function Changed(c: Config, s: Session, op: Op, id: string): Session {
    if op == Reset(id) then Session(c.sessionBudget, 0, map[], 0)
    else if op.Consume? && op.id == id then Spend(s, op.task, op.actual) else s
  }

  lemma SessionStep(c: Config, ops: seq<Op>, op: Op, id: string)
    ensures SessionOf(c, After(c, ops + [op]), id) == Changed(c, SessionOf(c, After(c, ops), id), op, id)
  {
    AfterStep(c, ops, op);
  }

  lemma EveryTaskListed(task: TaskType)
    ensures task in ALL_TASKS
  {
    var i := match task
      case Triage => 0
      case Diagnostic => 1
      case Planning => 2
      case Remediation => 3
      case Report => 4
      case Patrol => 5
      case AlertCorrelation => 6;
    assert ALL_TASKS[i] == task;
  }

  lemma ChangedTally(c: Config, s: Session, op: Op, id: string)
    requires s.total == c.sessionBudget && s.used == Tally(s)
    ensures var s' := Changed(c, s, op, id);
            && s'.total == c.sessionBudget && s'.used == Tally(s')
            && s'.used == (if op == Reset(id) then 0 else s.used + if op.Consume? && op.id == id then op.actual else 0)
  {
    if op == Reset(id) {
      NothingUsed(Changed(c, s, op, id), ALL_TASKS);
    } else if op.Consume? && op.id == id {
      EveryTaskListed(op.task);
      SpendSum(s, op.task, op.actual, ALL_TASKS);
    }
  }

  lemma FaithfulStep(c: Config, ops: seq<Op>, op: Op, id: string)
    requires Faithful(c, ops, id)
    ensures Faithful(c, ops + [op], id)
  {
    SessionStep(c, ops, op, id);
    ChangedTally(c, SessionOf(c, After(c, ops), id), op, id);
    SpentStep(ops, op, id);
  }

  /**
   After any operations, a session holds exactly what was consumed in its name since its last
   reset, task by task and call by call, and its total is the sum of its tasks.
   */
  lemma {:induction false} BookIsHistory(c: Config, ops: seq<Op>, id: string)
    ensures Faithful(c, ops, id)
  {
    if ops == [] {
      NothingUsed(Session(c.sessionBudget, 0, map[], 0), ALL_TASKS);
    } else {
      var n := |ops| - 1;
      BookIsHistory(c, ops[..n], id);
      FaithfulStep(c, ops[..n], ops[n], id);
      assert ops == ops[..n] + [ops[n]];
    }
  }

  // ---------------------------------------------------------------- the answer, from the history

  /**
   After any history a check is answered from what the session and the task consumed since the last
   reset: rejected beyond what is left of the session, or of the task if it allows no downgrade;
   downgraded beyond what is left of the task; compressed beyond the limit of one call.
   */
  lemma AnswersFromHistory(c: Config, ops: seq<Op>, id: string, task: TaskType, estimate: int)
    ensures var answer := Decide(c, SessionOf(c, After(c, ops), id), task, estimate);
            var left := c.sessionBudget - SpentBy(ops, id);
            var fits := estimate <= if left > 0 then left else 0;
            if task !in c.tasks then answer == if fits then Allow else Reject
            else
              var fitsTask := estimate <= c.tasks[task].perSession - SpentOn(ops, id, task);
              && (answer == Reject <==> !fits || (!fitsTask && !c.tasks[task].allowDowngrade))
              && (answer == Downgrade <==> fits && !fitsTask && c.tasks[task].allowDowngrade)
              && (answer == Compress <==> fits && fitsTask && estimate > c.tasks[task].perCall)
              && (answer == Allow <==> fits && fitsTask && estimate <= c.tasks[task].perCall && c.tasks[task].perSession != 0)
  {
    BookIsHistory(c, ops, id);
    assert UsageOf(SessionOf(c, After(c, ops), id), task) == SpentOn(ops, id, task);
  }

  /** With the shipped limits a new session of at least 8000 tokens allows one call of each kind up to these sizes. */
  lemma ShippedLimits(budget: int, task: TaskType, estimate: int)
    requires budget >= 8000
    ensures var largest := match task
              case Triage => 2000
              case Diagnostic => 8000
              case Planning => 6000
              case Remediation => 4000
              case Report => 6000
              case Patrol => 3000
              case AlertCorrelation => 6000;
            Decide(Config(budget, DEFAULT_BUDGETS), Session(budget, 0, map[], 0), task, estimate) == Allow <==> estimate <= largest
    ensures var shipped := match task
              case Triage => 5000
              case Diagnostic => 40000
              case Planning => 15000
              case Remediation => 10000
              case Report => 10000
              case Patrol => 8000
              case AlertCorrelation => 15000;
            task in DEFAULT_BUDGETS && DEFAULT_BUDGETS[task].perSession == shipped && DEFAULT_BUDGETS[task].allowDowngrade
  {}

  // ---------------------------------------------------------------- check, then consume

  /** A check of the same session and task, answered acceptably, with at most other checks of the session since. */
  ghost predicate ClearedAt(c: Config, ops: seq<Op>, i: nat, j: nat, ok: BudgetAction -> bool)
    requires i < |ops| && ops[i].Consume?
  {
    && j < i && ops[j].Check? && ops[j].id == ops[i].id && ops[j].task == ops[i].task
    && ops[i].actual <= ops[j].estimate
    && ok(Decide(c, SessionOf(c, After(c, ops[..j]), ops[j].id), ops[j].task, ops[j].estimate))
    && forall k :: j < k < i ==> ops[k].id != ops[i].id || ops[k].Check?
  }

  ghost predicate Disciplined(c: Config, ops: seq<Op>, ok: BudgetAction -> bool) {
    forall i: nat :: i < |ops| && ops[i].Consume? ==> exists j: nat :: ClearedAt(c, ops, i, j, ok)
  }

  function NotRejected(): BudgetAction -> bool { (a: BudgetAction) => a.Allow? || a.Compress? || a.Downgrade? }

  function FullyAllowed(): BudgetAction -> bool { (a: BudgetAction) => a.Allow? || a.Compress? }

  function Cap(limit: int): int { if limit > 0 then limit else 0 }

  lemma {:induction false} SessionUntouched(c: Config, ops: seq<Op>, j: nat, i: nat, id: string)
    requires j <= i <= |ops| && forall k :: j <= k < i ==> ops[k].id != id || ops[k].Check?
    ensures SessionOf(c, After(c, ops[..i]), id) == SessionOf(c, After(c, ops[..j]), id)
  {
    if j < i {
      SessionUntouched(c, ops, j, i - 1, id);
      assert ops[..i] == ops[..i - 1] + [ops[i - 1]];
      AfterStep(c, ops[..i - 1], ops[i - 1]);
    }
  }

  /** A cleared consumption still fits when it comes. */
  lemma ClearedFits(c: Config, ops: seq<Op>, i: nat, j: nat, ok: BudgetAction -> bool)
    requires i < |ops| && ops[i].Consume? && ClearedAt(c, ops, i, j, ok)
    ensures ok(Decide(c, SessionOf(c, After(c, ops[..i]), ops[i].id), ops[i].task, ops[j].estimate))
  {
    var id := ops[i].id;
    assert ops[..j + 1] == ops[..j] + [ops[j]];
    AfterStep(c, ops[..j], ops[j]);
    SessionUntouched(c, ops, j + 1, i, id);
  }

  lemma DisciplinedPrefix(c: Config, ops: seq<Op>, n: nat, ok: BudgetAction -> bool)
    requires Disciplined(c, ops, ok) && n <= |ops|
    ensures Disciplined(c, ops[..n], ok)
  {
    forall i: nat | i < n && ops[..n][i].Consume? ensures exists j: nat :: ClearedAt(c, ops[..n], i, j, ok) {
      var j: nat :| ClearedAt(c, ops, i, j, ok);
      assert ops[..n][..j] == ops[..j];
      assert ClearedAt(c, ops[..n], i, j, ok);
    }
  }

  lemma SpendFits(c: Config, s: Session, task: TaskType, estimate: int, actual: int)
    requires actual <= estimate && s.total == c.sessionBudget
    ensures s.used <= Cap(s.total) && NotRejected()(Decide(c, s, task, estimate)) ==>
      Spend(s, task, actual).used <= Cap(s.total)
    ensures task in c.tasks && UsageOf(s, task) <= Cap(c.tasks[task].perSession)
            && FullyAllowed()(Decide(c, s, task, estimate)) ==>
      UsageOf(Spend(s, task, actual), task) <= Cap(c.tasks[task].perSession)
  {}

  /** The session before the last operation, and after it. */
  lemma LastOp(c: Config, ops: seq<Op>, id: string)
    requires ops != []
    ensures var n := |ops| - 1;
            SessionOf(c, After(c, ops), id) == Changed(c, SessionOf(c, After(c, ops[..n]), id), ops[n], id)
  {}

  lemma LastClears(c: Config, ops: seq<Op>, ok: BudgetAction -> bool) returns (estimate: int)
    requires ops != [] && ops[|ops| - 1].Consume? && Disciplined(c, ops, ok)
    ensures var op := ops[|ops| - 1];
            op.actual <= estimate && ok(Decide(c, SessionOf(c, After(c, ops[..|ops| - 1]), op.id), op.task, estimate))
  {
    var n: nat := |ops| - 1;
    var j: nat :| ClearedAt(c, ops, n, j, ok);
    ClearedFits(c, ops, n, j, ok);
    estimate := ops[j].estimate;
  }

  /**
   If every consumption follows a check of its own that was not rejected and whose estimate bounds
   it, no session ever exceeds its budget, whatever other sessions do in between.
   */
  lemma {:induction false} BudgetHolds(c: Config, ops: seq<Op>, id: string)
    requires Disciplined(c, ops, NotRejected())
    ensures SessionOf(c, After(c, ops), id).used <= if c.sessionBudget > 0 then c.sessionBudget else 0
    ensures SessionOf(c, After(c, ops), id).total == c.sessionBudget
  {
    if ops != [] {
      var n := |ops| - 1;
      DisciplinedPrefix(c, ops, n, NotRejected());
      BudgetHolds(c, ops[..n], id);
      LastOp(c, ops, id);
      if ops[n].Consume? && ops[n].id == id {
        var estimate := LastClears(c, ops, NotRejected());
        SpendFits(c, SessionOf(c, After(c, ops[..n]), id), ops[n].task, estimate, ops[n].actual);
      }
    }
  }

  /** If moreover nothing is consumed on a downgrade, no task exceeds its cap for the session. */
  lemma {:induction false} TaskCapHolds(c: Config, ops: seq<Op>, id: string, task: TaskType)
    requires Disciplined(c, ops, FullyAllowed()) && task in c.tasks
    ensures UsageOf(SessionOf(c, After(c, ops), id), task) <= if c.tasks[task].perSession > 0 then c.tasks[task].perSession else 0
  {
    if ops != [] {
      var n := |ops| - 1;
      DisciplinedPrefix(c, ops, n, FullyAllowed());
      TaskCapHolds(c, ops[..n], id, task);
      LastOp(c, ops, id);
      if ops[n].Consume? && ops[n].id == id && ops[n].task == task {
        var estimate := LastClears(c, ops, FullyAllowed());
        BookIsHistory(c, ops[..n], id);
        SpendFits(c, SessionOf(c, After(c, ops[..n]), id), task, estimate, ops[n].actual);
      }
    }
  }

  // ---------------------------------------------------------------- checks that overlap

  /** The operations of one session. */
  function Own(ops: seq<Op>, id: string): seq<Op> {
    if ops == [] then []
    else Own(ops[..|ops| - 1], id) + if ops[|ops| - 1].id == id then [ops[|ops| - 1]] else []
  }

  lemma OwnStep(ops: seq<Op>, id: string)
    requires ops != []
    ensures var n := |ops| - 1;
            Own(ops, id) == if ops[n].id == id then Own(ops[..n], id) + [ops[n]] else Own(ops[..n], id)
  {}

  /** What one session is and does depends on its own operations only. */
  lemma {:induction false} OthersDoNotMatter(c: Config, ops: seq<Op>, id: string)
    ensures SessionOf(c, After(c, ops), id) == SessionOf(c, After(c, Own(ops, id)), id)
  {
    if ops != [] {
      var n := |ops| - 1;
      OthersDoNotMatter(c, ops[..n], id);
      LastOp(c, ops, id);
      OwnStep(ops, id);
      if ops[n].id == id { AfterStep(c, Own(ops[..n], id), ops[n]); }
    }
  }

  /** What the session consumes in some operations. */
  function Consumed(ops: seq<Op>, id: string): int {
    if ops == [] then 0
    else
      var op := ops[|ops| - 1];
      Consumed(ops[..|ops| - 1], id) + if op.Consume? && op.id == id then op.actual else 0
  }

  ghost predicate OnlySpends(ops: seq<Op>, id: string) {
    forall k :: 0 <= k < |ops| && ops[k].id == id ==> !ops[k].Reset? && (ops[k].Consume? ==> ops[k].actual >= 0)
  }

  lemma ConsumedStep(ops: seq<Op>, op: Op, id: string)
    ensures Consumed(ops + [op], id) == Consumed(ops, id) + if op.Consume? && op.id == id then op.actual else 0
  {
    assert (ops + [op])[..|ops|] == ops;
  }

  lemma {:induction false} UsedAfter(c: Config, ops: seq<Op>, tail: seq<Op>, id: string, n: nat)
    requires n <= |tail| && OnlySpends(tail, id)
    ensures var s := SessionOf(c, After(c, ops + tail[..n]), id);
            s.used == SessionOf(c, After(c, ops), id).used + Consumed(tail[..n], id)
  {
    if n == 0 {
      assert ops + tail[..0] == ops;
    } else {
      UsedAfter(c, ops, tail, id, n - 1);
      assert tail[..n] == tail[..n - 1] + [tail[n - 1]];
      assert ops + tail[..n] == (ops + tail[..n - 1]) + [tail[n - 1]];
      SessionStep(c, ops + tail[..n - 1], tail[n - 1], id);
      ConsumedStep(tail[..n - 1], tail[n - 1], id);
    }
  }

  lemma {:induction false} ConsumedGrows(tail: seq<Op>, id: string, n: nat)
    requires n <= |tail| && OnlySpends(tail, id)
    ensures 0 <= Consumed(tail[..n], id) <= Consumed(tail, id)
    decreases |tail| - n
  {
    ConsumedNonNegative(tail[..n], id);
    if n == |tail| {
      assert tail[..n] == tail;
    } else {
      ConsumedGrows(tail, id, n + 1);
      assert tail[..n + 1][..n] == tail[..n];
    }
  }

  lemma {:induction false} ConsumedNonNegative(ops: seq<Op>, id: string)
    requires OnlySpends(ops, id)
    ensures Consumed(ops, id) >= 0
  {
    if ops != [] { ConsumedNonNegative(ops[..|ops| - 1], id); }
  }

  /** The budget is kept after the first n operations of a schedule, and after all shorter ones. */
  ghost predicate Kept(c: Config, ops: seq<Op>, tail: seq<Op>, id: string, n: nat)
    requires n <= |tail|
  {
    SessionOf(c, After(c, ops + tail[..n]), id).used <= if c.sessionBudget > 0 then c.sessionBudget else 0
  }

  ghost predicate AlwaysKept(c: Config, ops: seq<Op>, tail: seq<Op>, id: string) {
    forall n: nat :: n <= |tail| ==> Kept(c, ops, tail, id, n)
  }

  /**
   However checks and consumptions of a session overlap, with each other and with other sessions:
   its budget is kept throughout exactly when all it consumes fits what remained at the start.
   */
  lemma KeptExactly(c: Config, ops: seq<Op>, tail: seq<Op>, id: string)
    requires OnlySpends(tail, id)
    requires var s := SessionOf(c, After(c, ops), id); s.total == c.sessionBudget && 0 <= s.used <= Cap(s.total)
    ensures AlwaysKept(c, ops, tail, id) <==> Consumed(tail, id) <= Remaining(SessionOf(c, After(c, ops), id))
  {
    forall n: nat | n <= |tail|
      ensures Kept(c, ops, tail, id, n)
              <==> Consumed(tail[..n], id) <= Remaining(SessionOf(c, After(c, ops), id))
      ensures Consumed(tail[..n], id) <= Consumed(tail, id)
    {
      UsedAfter(c, ops, tail, id, n);
      ConsumedGrows(tail, id, n);
    }
    assert tail[..|tail|] == tail;
    assert AlwaysKept(c, ops, tail, id) ==> Kept(c, ops, tail, id, |tail|);
  }

  /** Calls that check first and consume their whole estimates later. */
  type Calls = seq<(TaskType, int)>

  function ChecksOf(id: string, calls: Calls): seq<Op> {
    seq(|calls|, i requires 0 <= i < |calls| => Check(id, calls[i].0, calls[i].1))
  }

  function ConsumesOf(id: string, calls: Calls): seq<Op> {
    seq(|calls|, i requires 0 <= i < |calls| => Consume(id, calls[i].0, calls[i].1))
  }

  function Estimates(calls: Calls): int {
    if calls == [] then 0 else Estimates(calls[..|calls| - 1]) + calls[|calls| - 1].1
  }

  lemma {:induction false} ConsumedOwn(ops: seq<Op>, id: string)
    ensures Consumed(ops, id) == Consumed(Own(ops, id), id)
  {
    if ops != [] {
      var n := |ops| - 1;
      ConsumedOwn(ops[..n], id);
      OwnStep(ops, id);
      var own := Own(ops[..n], id);
      assert ops[n].id == id ==> (own + [ops[n]])[..|own|] == own;
    }
  }

  lemma {:induction false} ConsumedByCalls(before: seq<Op>, id: string, calls: Calls)
    ensures Consumed(before + ConsumesOf(id, calls), id) == Consumed(before, id) + Estimates(calls)
  {
    var ops := before + ConsumesOf(id, calls);
    if calls == [] {
      assert ops == before;
    } else {
      var n := |calls| - 1;
      ConsumedByCalls(before, id, calls[..n]);
      assert ops[..|ops| - 1] == before + ConsumesOf(id, calls[..n]);
    }
  }

  lemma {:induction false} ChecksConsumeNothing(ops: seq<Op>, id: string)
    requires forall k :: 0 <= k < |ops| ==> ops[k].Check?
    ensures Consumed(ops, id) == 0
  {
    if ops != [] { ChecksConsumeNothing(ops[..|ops| - 1], id); }
  }

  lemma {:induction false} OwnAre(ops: seq<Op>, id: string)
    ensures forall k :: 0 <= k < |ops| && ops[k].id == id ==> ops[k] in Own(ops, id)
  {
    if ops != [] { OwnAre(ops[..|ops| - 1], id); }
  }

  /**
   Calls that all check before any of them consumes, whatever other sessions do in between: no check
   sees the others, and consumed in full they keep the budget exactly when their estimates together
   fit what remained.
   */
  lemma {:induction false} OverlapExactly(c: Config, ops: seq<Op>, tail: seq<Op>, id: string, calls: Calls)
    requires Own(tail, id) == ChecksOf(id, calls) + ConsumesOf(id, calls)
    requires forall i :: 0 <= i < |calls| ==> calls[i].1 >= 0
    requires var s := SessionOf(c, After(c, ops), id); s.total == c.sessionBudget && 0 <= s.used <= Cap(s.total)
    ensures AlwaysKept(c, ops, tail, id) <==> Estimates(calls) <= Remaining(SessionOf(c, After(c, ops), id))
  {
    OwnAre(tail, id);
    assert forall op :: op in Own(tail, id) ==> op in ChecksOf(id, calls) || op in ConsumesOf(id, calls);
    KeptExactly(c, ops, tail, id);
    ConsumedOwn(tail, id);
    ConsumedByCalls(ChecksOf(id, calls), id, calls);
    ChecksConsumeNothing(ChecksOf(id, calls), id);
  }

  /** A check is answered from what was consumed, not from what was checked. */
  lemma ChecksDoNotSeeEachOther(c: Config, ops: seq<Op>, tail: seq<Op>, n: nat)
    requires n < |tail| && tail[n].Check?
    requires forall k :: 0 <= k < n && tail[k].id == tail[n].id ==> tail[k].Check?
    ensures Decide(c, SessionOf(c, After(c, ops + tail[..n]), tail[n].id), tail[n].task, tail[n].estimate)
            == Decide(c, SessionOf(c, After(c, ops), tail[n].id), tail[n].task, tail[n].estimate)
  {
    var all := ops + tail[..n];
    SessionUntouched(c, all, |ops|, |all|, tail[n].id);
    assert all[..|ops|] == ops && all[..|all|] == all;
  }

  /**
   The check reserves nothing: two calls that both check before either consumes overrun any
   positive budget, though neither was rejected.
   */
  lemma {:induction false} OverlappingChecksOverrun(c: Config, id: string, task: TaskType)
    requires c.sessionBudget >= 1 && (task in c.tasks ==> c.tasks[task].allowDowngrade)
    ensures var all := c.sessionBudget;
            var ops := [Check(id, task, all), Check(id, task, all), Consume(id, task, all), Consume(id, task, all)];
            && NotRejected()(Decide(c, SessionOf(c, After(c, ops[..0]), id), task, all))
            && NotRejected()(Decide(c, SessionOf(c, After(c, ops[..1]), id), task, all))
            && SessionOf(c, After(c, ops), id).used == 2 * c.sessionBudget > Cap(c.sessionBudget)
  {
    var all := c.sessionBudget;
    var ops := [Check(id, task, all), Check(id, task, all), Consume(id, task, all), Consume(id, task, all)];
    var none: seq<Op> := [];
    assert ops[..0] == none;
    AfterStep(c, ops[..0], ops[0]);
    assert ops[..1] == ops[..0] + [ops[0]];
    AfterStep(c, ops[..1], ops[1]);
    assert ops[..2] == ops[..1] + [ops[1]];
    AfterStep(c, ops[..2], ops[2]);
    assert ops[..3] == ops[..2] + [ops[2]];
    AfterStep(c, ops[..3], ops[3]);
    assert ops == ops[..3] + [ops[3]];
  }

  // ---------------------------------------------------------------- the usage rate

  /**
   The exception is raised exactly for a cap of zero and an estimate that passes the tests before:
   some estimate does so whenever the cap is zero, and none above zero while the usage is not negative.
   */
  lemma DivisionExactly(c: Config, s: Session, task: TaskType)
    ensures forall estimate: int :: Decide(c, s, task, estimate) == DivisionByZero <==>
              && task in c.tasks && c.tasks[task].perSession == 0
              && estimate <= Remaining(s) && estimate <= -UsageOf(s, task) && estimate <= c.tasks[task].perCall
    ensures (exists estimate: int :: Decide(c, s, task, estimate) == DivisionByZero)
            <==> task in c.tasks && c.tasks[task].perSession == 0
    ensures UsageOf(s, task) >= 0 ==> forall estimate: int :: estimate > 0 ==> Decide(c, s, task, estimate) != DivisionByZero
  {
    if task in c.tasks && c.tasks[task].perSession == 0 {
      var b := c.tasks[task];
      var estimate := Min(Min(-UsageOf(s, task), b.perCall), 0);
      assert Decide(c, s, task, estimate) == DivisionByZero;
    }
  }
}

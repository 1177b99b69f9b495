/**
 Transactions and isolation levels of dblift/db/sqlalchemy_provider.py: the autocommit switch
 around one statement, the explicit transaction, and the deferred commit of a caller's work.

 The connection is modelled by what the provider relies on: an option mapping, the level of the
 driver connection and the current transaction, which the first statement begins by itself.
 */
module Isolation {
  import opened Basics

  const ISOLATION := "isolation_level"
  const AUTOCOMMIT := "AUTOCOMMIT"

  /** A transaction is told from every other by identity alone. */
  class Transaction {
    constructor () {
    }
  }

  /** What happened on a connection; the tail of a trace is the latest. */
  datatype Happening =
    | Ran(level: string, within: Transaction)
    | Committed(tx: Transaction)
    | RolledBack(tx: Transaction)
    | LevelSet(level: string, open: Transaction?)

  /** A statement may fail, or fail and leave the connection closed. */
  datatype Outcome = Done(rows: int) | Failed | Lost

  datatype Fault = StatementFailed | TransactionOpen | Inactive

  /** The driver level a connection stands at with these options: the option, or what it was made with. */
  function Effective(options: map<string, string>, configured: string): string {
    if "isolation_level" in options then options["isolation_level"] else configured
  }

  predicate Ends(h: Happening, t: Transaction) {
    h == Committed(t) || h == RolledBack(t)
  }

  /** Levels were only ever set with no transaction open. */
  predicate Quiet(trace: seq<Happening>) {
    forall h :: h in trace && h.LevelSet? ==> h.open == null
  }

  class Connection {
    const configured: string
    var options: map<string, string>
    var level: string
    var current: Transaction?
    var closed: bool
    ghost var trace: seq<Happening>

    ghost predicate Valid()
      reads this
    {
      && level == Effective(options, configured)
      && OverIsOver()
    }

    /** A transaction that ended never becomes the current one again. */
    ghost predicate OverIsOver()
      reads this
    {
      forall h :: h in trace && current != null ==> !Ends(h, current)
    }

    constructor (configured: string, options: map<string, string>)
      ensures Valid() && !closed && current == null && trace == []
      ensures this.configured == configured && this.options == options
    {
      this.configured := configured;
      this.options := options;
      level := Effective(options, configured);
      current, closed, trace := null, false, [];
    }

    /** A statement begins a transaction unless one is open, and may fail or lose the connection. */
    method Execute(outcome: Outcome) returns (tx: Transaction)
      requires OverIsOver()
      modifies this`current, this`closed, this`trace
      ensures OverIsOver()
      ensures if old(current) == null then fresh(tx) else tx == old(current)
      ensures trace == old(trace) + [Ran(level, tx)]
      ensures closed == (old(closed) || outcome.Lost?)
      ensures current == if outcome.Lost? then null else tx
    {
      if current == null {
        current := new Transaction();
      }
      tx := current;
      trace := trace + [Ran(level, tx)];
      if outcome.Lost? {
        current, closed := null, true;
      }
    }

    /** Refused when a transaction is already open, be it by itself. */
    method Begin() returns (tx: Transaction?)
      requires OverIsOver()
      modifies this`current
      ensures OverIsOver()
      ensures old(current) != null ==> tx == null && current == old(current)
      ensures old(current) == null ==> tx != null && fresh(tx) && current == tx
    {
      if current != null {
        return null;
      }
      current := new Transaction();
      tx := current;
    }

    method Commit()
      requires OverIsOver()
      modifies this`current, this`trace
      ensures OverIsOver() && current == null
      ensures trace == old(trace) + if old(current) == null then [] else [Committed(old(current))]
    {
      if current != null {
        trace := trace + [Committed(current)];
        current := null;
      }
    }

    method Rollback()
      requires OverIsOver()
      modifies this`current, this`trace
      ensures OverIsOver() && current == null
      ensures trace == old(trace) + Discarded(old(current))
    {
      if current != null {
        trace := trace + [RolledBack(current)];
        current := null;
      }
    }

    /** `execution_options(isolation_level=...)`: refused while a transaction is open. */
    method SetLevel(value: string) returns (ok: bool)
      requires OverIsOver()
      modifies this`options, this`level, this`trace
      ensures OverIsOver()
      ensures ok == (current == null)
      ensures !ok ==> options == old(options) && level == old(level) && trace == old(trace)
      ensures ok ==> options == old(options)[ISOLATION := value] && level == value
      ensures ok ==> trace == old(trace) + [LevelSet(value, null)]
    {
      if current != null {
        return false;
      }
      options := options[ISOLATION := value];
      level := value;
      trace := trace + [LevelSet(value, null)];
      ok := true;
    }

    /** `reset_isolation_level` acts on the driver connection alone, and asks nobody. */
    method ResetLevel()
      requires OverIsOver()
      modifies this`level, this`trace
      ensures OverIsOver()
      ensures level == configured && trace == old(trace) + [LevelSet(configured, current)]
    {
      level := configured;
      trace := trace + [LevelSet(configured, current)];
    }
  }

  function Discarded(open: Transaction?): seq<Happening> {
    if open == null then [] else [RolledBack(open)]
  }

  /**
   What one autocommit statement does to a connection: what was open is given up, the
   statement runs at level AUTOCOMMIT in a transaction `tx` of its own, which is gone before
   the level goes back to what it was.
   */
  function AutocommitTrace(open: Transaction?, tx: Transaction, outcome: Outcome, external: bool, level: string):
    seq<Happening>
  {
    Discarded(open) + [LevelSet("AUTOCOMMIT", null), Ran("AUTOCOMMIT", tx)] +
    if outcome.Lost? then []
    else [if outcome.Done? && !external then Committed(tx) else RolledBack(tx), LevelSet(level, null)]
  }

  class Provider {
    /** Whether the connection was handed in by the caller. */
    const external: bool
    const engineLevel: string
    const engineOptions: map<string, string>
    var connection: Connection?
    var tx: Transaction?
    var callerWork: Transaction?

    ghost predicate Valid()
      reads this, connection
    {
      connection != null ==> connection.Valid() && Quiet(connection.trace)
    }

    ghost function Conn(): set<object>
      reads this
    {
      if connection == null then {} else {connection}
    }

    predicate Open()
      reads this, connection
    {
      connection != null && !connection.closed
    }

    constructor (external: bool, engineLevel: string, engineOptions: map<string, string>, connection: Connection?)
      requires connection != null ==> connection.Valid() && Quiet(connection.trace)
      ensures Valid() && this.connection == connection && tx == null && callerWork == null
      ensures this.external == external && this.engineLevel == engineLevel && this.engineOptions == engineOptions
    {
      this.external, this.engineLevel, this.engineOptions := external, engineLevel, engineOptions;
      this.connection, tx, callerWork := connection, null, null;
    }

    /** The connection, if it is the same as before, keeps its options and level; a closed one stays closed. */
    twostate predicate LevelKept()
      reads this, connection
    {
      connection != null && connection == old(connection) ==>
        && connection.options == old(connection.options) && connection.level == old(connection.level)
        && (old(connection.closed) ==> connection.closed)
    }

    method EnsureConnection() returns (conn: Connection)
      requires Valid()
      modifies this`connection
      ensures Valid() && connection == conn && !conn.closed
      ensures old(Open()) ==> conn == old(connection)
      ensures !old(Open()) ==>
        && fresh(conn) && conn.options == engineOptions && conn.configured == engineLevel
        && conn.current == null && conn.trace == []
    {
      if connection == null || connection.closed {
        connection := new Connection(engineLevel, engineOptions);
      }
      conn := connection;
    }

    method ExecuteStatement(outcome: Outcome) returns (r: Result<int, Fault>, ghost ran: Transaction)
      requires Valid()
      modifies this`connection, Conn()
      ensures LevelKept()
      ensures Valid() && connection != null
      ensures if old(Open()) then connection == old(connection) else fresh(connection)
      ensures old(Open()) && old(connection.current) != null ==> ran == old(connection.current)
      ensures !old(Open()) || old(connection.current) == null ==> fresh(ran)
      ensures connection.trace == (if old(Open()) then old(connection.trace) else []) + [Ran(connection.level, ran)] +
        if outcome.Done? && tx == null && !external then [Committed(ran)] else []
      ensures connection.closed == outcome.Lost?
      ensures connection.current ==
        if outcome.Lost? || (outcome.Done? && tx == null && !external) then null else ran
      ensures r == if outcome.Done? then Success(outcome.rows) else Failure(StatementFailed)
    {
      var conn := EnsureConnection();
      ran := conn.Execute(outcome);
      if !outcome.Done? {
        return Failure(StatementFailed), ran;
      }
      if tx == null && !external {
        conn.Commit();
      }
      r := Success(outcome.rows);
    }

    method BeginTransaction() returns (r: Result<(), Fault>)
      requires Valid()
      modifies this`connection, this`tx, Conn()
      ensures LevelKept()
      ensures Valid()
      ensures r.Success? <==> (old(Open()) ==> old(connection.current) == null)
      ensures r.Success? ==> tx != null && fresh(tx) && connection != null && connection.current == tx
      ensures r.Failure? ==> tx == old(tx) && connection == old(connection)
      ensures r.Failure? ==> connection.current == old(connection.current)
    {
      var conn := EnsureConnection();
      var begun := conn.Begin();
      if begun == null {
        return Failure(TransactionOpen);
      }
      tx := begun;
      r := Success(());
    }

    /** Ending a transaction that is not its connection's current one: commits raise, rollbacks do nothing. */
    predicate IsCurrent(t: Transaction?)
      reads this, connection
    {
      t != null && connection != null && connection.current == t
    }

    method CommitTransaction() returns (r: Result<(), Fault>)
      requires Valid()
      modifies this`tx, this`callerWork, Conn()
      ensures LevelKept()
      ensures Valid() && callerWork == null
      ensures r.Success? <==> old(tx) == null || old(IsCurrent(tx))
      ensures tx == if r.Success? then null else old(tx)
      ensures connection != null ==>
        connection.trace == old(connection.trace) + if old(IsCurrent(tx)) then [Committed(old(tx))] else []
    {
      callerWork := null;
      if tx != null {
        if !IsCurrent(tx) {
          return Failure(Inactive);
        }
        connection.Commit();
        tx := null;
      }
      r := Success(());
    }

    method RollbackTransaction()
      requires Valid()
      modifies this`tx, this`callerWork, Conn()
      ensures LevelKept()
      ensures Valid() && callerWork == null && tx == null
      ensures connection != null ==>
        connection.trace == old(connection.trace) +
          if old(IsCurrent(tx)) || (old(tx) == null && old(Open())) then Discarded(old(connection.current)) else []
    {
      callerWork := null;
      if tx != null {
        if IsCurrent(tx) {
          connection.Rollback();
        }
        tx := null;
      } else if connection != null && !connection.closed {
        connection.Rollback();
      }
    }

    /** `_end_open_transaction`. */
    method EndOpenTransaction()
      requires Valid() && connection != null
      modifies this`tx, connection`current, connection`trace
      ensures Valid() && tx == null && connection.current == null
      ensures connection.trace == old(connection.trace) + Discarded(old(connection.current))
    {
      if tx != null {
        if IsCurrent(tx) {
          connection.Rollback();
        }
        tx := null;
      }
      if connection.current != null {
        connection.Rollback();
      }
    }

    /** `_restore_isolation_level`: the level of the driver first, then the mapping as a whole. */
    method RestoreIsolationLevel(previous: map<string, string>) returns (ok: bool)
      requires connection != null && connection.OverIsOver()
      modifies connection`options, connection`level, connection`trace
      ensures connection.OverIsOver()
      ensures ok == (ISOLATION in previous ==> connection.current == null)
      ensures ok ==> connection.options == previous && connection.level == Effective(previous, connection.configured)
      ensures ok ==> connection.trace == old(connection.trace) + [LevelSet(connection.level, connection.current)]
    {
      if ISOLATION in previous {
        ok := connection.SetLevel(previous[ISOLATION]);
        if !ok {
          return;
        }
      } else {
        connection.ResetLevel();
      }
      connection.options := previous;
      ok := true;
    }

    /** From the clean boundary on: switch, run, and whatever happened switch back. */
    method RunSwitched(outcome: Outcome) returns (r: Result<int, Fault>, ghost ran: Transaction)
      requires Valid() && Open() && connection.current == null && tx == null
      modifies this`connection, this`tx, connection
      ensures Valid() && connection == old(connection) && connection.current == null && tx == null
      ensures !connection.closed ==>
        connection.options == old(connection.options) && connection.level == old(connection.level)
      ensures fresh(ran)
      ensures connection.trace ==
        old(connection.trace) + AutocommitTrace(null, ran, outcome, external, old(connection.level))
      ensures r == if outcome.Done? then Success(outcome.rows) else Failure(StatementFailed)
      ensures connection.closed == outcome.Lost?
    {
      var conn := connection;
      var previous := conn.options;
      ghost var start, level := conn.trace, conn.level;
      var _ := conn.SetLevel(AUTOCOMMIT);
      r, ran := ExecuteStatement(outcome);
      assert conn.trace == start + [LevelSet(AUTOCOMMIT, null), Ran(AUTOCOMMIT, ran)] +
        if outcome.Done? && !external then [Committed(ran)] else [];
      if !conn.closed {
        EndOpenTransaction();
        assert conn.trace == start + [LevelSet(AUTOCOMMIT, null), Ran(AUTOCOMMIT, ran)] +
          [if outcome.Done? && !external then Committed(ran) else RolledBack(ran)];
        var _ := RestoreIsolationLevel(previous);
      }
    }

    /** Any statement, failing or not, leaves an open connection's options and level as they were. */
    method ExecuteAutocommitStatement(outcome: Outcome) returns (r: Result<int, Fault>, ghost ran: Transaction)
      requires Valid()
      modifies this`connection, this`tx, Conn()
      ensures Valid() && tx == null && connection != null && connection.current == null
      ensures if old(Open()) then connection == old(connection) else fresh(connection)
      ensures old(Open()) && !connection.closed ==>
        connection.options == old(connection.options) && connection.level == old(connection.level)
      ensures !old(Open()) && !connection.closed ==>
        connection.options == engineOptions && connection.level == Effective(engineOptions, engineLevel)
      ensures fresh(ran)
      ensures
        if old(Open()) then
          connection.trace == old(connection.trace) +
            AutocommitTrace(old(connection.current), ran, outcome, external, old(connection.level))
        else
          connection.trace == AutocommitTrace(null, ran, outcome, external, Effective(engineOptions, engineLevel))
      ensures r == if outcome.Done? then Success(outcome.rows) else Failure(StatementFailed)
      ensures connection.closed == outcome.Lost?
    {
      var conn := EnsureConnection();
      ghost var start, open, level := conn.trace, conn.current, conn.level;
      EndOpenTransaction();
      r, ran := RunSwitched(outcome);
      assert conn.trace == start + AutocommitTrace(open, ran, outcome, external, level);
    }

    /** `note_caller_work`. */
    method NoteCallerWork()
      modifies this`callerWork
      ensures callerWork == if connection == null then null else connection.current
    {
      callerWork := if connection == null then null else connection.current;
    }

    /**
     `commit_caller_work` commits the noted transaction if it is still the current one, hence
     has not ended since, and nothing otherwise; the note is used up either way.
     */
    method CommitCallerWork()
      requires Valid()
      modifies this`callerWork, Conn()
      ensures LevelKept()
      ensures Valid() && callerWork == null
      ensures connection != null ==>
        connection.trace == old(connection.trace) +
          if old(IsCurrent(callerWork)) then [Committed(old(callerWork))] else []
      ensures old(IsCurrent(callerWork)) ==>
        forall h :: h in old(connection.trace) ==> !Ends(h, old(callerWork))
    {
      var noted := callerWork;
      callerWork := null;
      if noted != null && connection != null && connection.current == noted {
        connection.Commit();
      }
    }
  }

  // ---------------------------------------------------------------- whole runs

  /** What the provider is asked for, and what the caller does to its own connection in between. */
  datatype Action =
    | Plain(outcome: Outcome)
    | Autocommit(outcome: Outcome)
    | Begin
    | Commit
    | Rollback
    | Note
    | CommitWork
    | CallerRuns(outcome: Outcome)
    | CallerCommits
    | CallerRollsBack

  method CallerActs(conn: Connection, action: Action)
    requires conn.Valid() && Quiet(conn.trace) && !conn.closed
    modifies conn`current, conn`closed, conn`trace
    ensures conn.Valid() && Quiet(conn.trace)
  {
    match action {
      case CallerRuns(outcome) =>
        ghost var _ := conn.Execute(outcome);
      case CallerCommits =>
        conn.Commit();
      case CallerRollsBack =>
        conn.Rollback();
      case _ =>
    }
  }

  /** The transaction current at the last note, which a commit of the caller's work may commit. */
  method Perform(provider: Provider, action: Action, ghost noted: Transaction?) returns (ghost latest: Transaction?)
    requires provider.Valid() && (provider.callerWork == null || provider.callerWork == noted)
    modifies provider, provider.Conn()
    ensures provider.Valid() && (provider.callerWork == null || provider.callerWork == latest)
    ensures provider.connection == old(provider.connection) || fresh(provider.connection)
    ensures old(provider.Open()) && provider.connection == old(provider.connection) && !provider.connection.closed ==>
      && provider.connection.options == old(provider.connection.options)
      && provider.connection.level == old(provider.connection.level)
    ensures provider.connection != null && provider.connection == old(provider.connection) ==>
      (old(provider.connection.closed) ==> provider.connection.closed)
    ensures latest ==
      if action.Note? then (if provider.connection == null then null else provider.connection.current) else noted
  {
    latest := noted;
    match action {
      case Plain(outcome) =>
        var _, _ := provider.ExecuteStatement(outcome);
      case Autocommit(outcome) =>
        var _, _ := provider.ExecuteAutocommitStatement(outcome);
      case Begin =>
        var _ := provider.BeginTransaction();
      case Commit =>
        var _ := provider.CommitTransaction();
      case Rollback =>
        provider.RollbackTransaction();
      case Note =>
        provider.NoteCallerWork();
        latest := provider.callerWork;
      case CommitWork =>
        provider.CommitCallerWork();
      case _ =>
        if provider.connection != null && !provider.connection.closed {
          CallerActs(provider.connection, action);
        }
    }
  }

  /**
   Whatever is asked for in whatever order, failing or not: while the connection is open it has
   the options and the level it started with, and no level was set with a transaction open.
   */
  method Serve(provider: Provider, actions: seq<Action>)
    requires provider.Valid() && provider.Open() && provider.callerWork == null
    modifies provider, provider.connection
    ensures provider.Valid()
    ensures provider.connection == old(provider.connection) && !provider.connection.closed ==>
      && provider.connection.options == old(provider.connection.options)
      && provider.connection.level == old(provider.connection.level)
  {
    ghost var noted: Transaction? := null;
    ghost var start := provider.connection;
    for i := 0 to |actions|
      invariant provider.Valid() && (provider.callerWork == null || provider.callerWork == noted)
      invariant provider.connection == start || fresh(provider.connection)
      invariant provider.connection == start && !start.closed ==>
        start.options == old(provider.connection.options) && start.level == old(provider.connection.level)
    {
      noted := Perform(provider, actions[i], noted);
    }
  }
}

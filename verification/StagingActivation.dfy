/** What an activation leaves in the log, and what its outcome has to do with it. */
module StagingActivation {
  import opened Bytes
  import opened StagingTypes
  import opened StagingModel
  import opened StagingLog

  /** Writing a boot table and reading both copies back, with the four clock readings around them. */
  datatype Attempt = Attempt(
    table: BootTable, result: int,
    writeStarted: uint32, writeEnded: uint32,
    readStarted: uint32, readEnded: uint32,
    primary: Option<BootTable>, backup: Option<BootTable>)

  function Events(a: Attempt): (events: seq<Event>)
    ensures |events| == if a.primary.Some? then 7 else 6
  {
    [Ticked(a.writeStarted), TableWritten(a.table, a.result), Ticked(a.writeEnded), Ticked(a.readStarted),
     CopyRead(0, a.primary)]
    + (if a.primary.Some? then [CopyRead(1, a.backup)] else [])
    + [Ticked(a.readEnded)]
  }

  /** Both copies read back as the table, and neither the write nor the read took too long. */
  predicate Durable(a: Attempt) {
    hide Late, Milliseconds;
    && Milliseconds(a.writeStarted, a.writeEnded) <= 15000 && Milliseconds(a.readStarted, a.readEnded) <= 15000
    && a.primary == a.backup == Some(a.table)
  }

  /** The second copy is read only if the first one can be. */
  predicate Read(a: Attempt) { a.primary.None? ==> a.backup.None? }

  lemma StoredIff(log: seq<Event>, a: Attempt)
    ensures Stored(log + Events(a), a.table) <==> Durable(a)
  {
    hide Late, Milliseconds;
    var longer := log + Events(a);
    var n := |longer|;
    if a.primary.Some? {
      assert longer[n - 7..] == Events(a);
      assert forall i | 0 <= i < 7 :: longer[n - 7 + i] == Events(a)[i];
    } else {
      assert longer[n - 3] == Events(a)[3];
    }
  }

  function AttemptOf(env: Env, w: World, table: BootTable): Attempt {
    var w1 := Tick(env, w);
    var w2 := NoteIn(w1, TableWritten(table, env.stores(w1.history, table)));
    var w3 := Tick(env, w2);
    var w4 := Tick(env, w3);
    var primary := env.copy(w4.history, 0);
    var backup := if primary.None? then None else env.copy(Note(w4.history, CopyRead(0, primary)), 1);
    Attempt(table, env.stores(w1.history, table), env.timeMs(w.history), env.timeMs(w2.history),
            env.timeMs(w3.history), env.timeMs(ReadCopies(env, w4).1.history), primary, backup)
  }

  /** The boot table commit succeeds exactly when its attempt is durable, and its log is that of the attempt. */
  lemma CommitTells(env: Env, w: World, table: BootTable)
    ensures var a := AttemptOf(env, w, table);
      && a.table == table && Read(a)
      && Commit(env, w, table).0 == Durable(a)
      && Commit(env, w, table).1.history.log == w.history.log + Events(a)
  {
    hide Late, Milliseconds;
  }

  /** The courses an activation can take once its token is consumed. */
  datatype Activation =
    | Unread(started: uint32)
    | Slow(started: uint32, previous: BootTable, ended: uint32)
    | Kept(started: uint32, previous: BootTable, ended: uint32, attempt: Attempt)
    | RolledBack(started: uint32, previous: BootTable, ended: uint32, attempt: Attempt, restore: Attempt)

  function Course(s: Activation): seq<Event> {
    match s
    case Unread(started) => [Ticked(started), TableRead(None)]
    case Slow(started, previous, ended) => [Ticked(started), TableRead(Some(previous)), Ticked(ended)]
    case Kept(started, previous, ended, attempt) =>
      [Ticked(started), TableRead(Some(previous)), Ticked(ended)] + Events(attempt)
    case RolledBack(started, previous, ended, attempt, restore) =>
      [Ticked(started), TableRead(Some(previous)), Ticked(ended)] + Events(attempt) + Events(restore)
  }

  /** The course is the right one for what was found: write only in time, restore only what was not durable. */
  predicate Right(s: Activation, candidate: BootTable) {
    hide Late, Milliseconds, Durable;
    match s
    case Unread(_) => true
    case Slow(started, _, ended) => Milliseconds(started, ended) > 15000
    case Kept(started, _, ended, attempt) =>
      && Milliseconds(started, ended) <= 15000
      && attempt.table == candidate && Read(attempt) && Durable(attempt)
    case RolledBack(started, previous, ended, attempt, restore) =>
      && Milliseconds(started, ended) <= 15000
      && attempt.table == candidate && Read(attempt) && !Durable(attempt)
      && restore.table == previous && Read(restore)
  }

  /** The result that the course calls for. */
  function Verdict(s: Activation): Error {
    hide Durable;
    match s
    case Unread(_) => ActivationError
    case Slow(_, _, _) => ActivationError
    case Kept(_, _, _, _) => Ok
    case RolledBack(_, _, _, _, restore) => if Durable(restore) then ActivationError else ActivationUncertain
  }

  function CourseOf(env: Env, w: World): Activation {
    hide Late, Milliseconds, Commit;
    var started := env.timeMs(w.history);
    var w1 := Tick(env, w);
    var found := env.table(w1.history);
    if found.None? then Unread(started)
    else
      var w2 := NoteIn(w1, TableRead(found));
      var previous, ended, w3 := found.value, env.timeMs(w2.history), Tick(env, w2);
      if Late(started, ended, ACTIVATION_MAX_MS) then Slow(started, previous, ended)
      else
        var (verified, w4) := Commit(env, w3, Candidate(w.session));
        var attempt := AttemptOf(env, w3, Candidate(w.session));
        if verified then Kept(started, previous, ended, attempt)
        else RolledBack(started, previous, ended, attempt, AttemptOf(env, w4, previous))
  }

  function Closing(error: Error): seq<Event> { if error == Ok then [] else [Closed(error)] }

  lemma InstallTells(env: Env, w: World)
    ensures var s, r := CourseOf(env, w), Install(env, w);
      && Right(s, Candidate(w.session)) && r.error == Verdict(s)
      && r.world.history.log == w.history.log + Course(s) + Closing(r.error)
  {
    hide Late, Milliseconds, Commit, Durable, AttemptOf, Candidate, Events;
    var log := w.history.log;
    var t0 := Ticked(env.timeMs(w.history));
    var w1 := Tick(env, w);
    var found := env.table(w1.history);
    var e := TableRead(found);
    if found.None? {
      assert ((log + [t0]) + [e]) + Closing(ActivationError) == log + [t0, e] + Closing(ActivationError);
    } else {
      var w2 := NoteIn(w1, e);
      var w3, t1 := Tick(env, w2), Ticked(env.timeMs(w2.history));
      assert ((log + [t0]) + [e]) + [t1] == log + [t0, e, t1];
      if !Late(env.timeMs(w.history), env.timeMs(w2.history), ACTIVATION_MAX_MS) {
        TriesTell(env, w3, Candidate(w.session), found.value, log, [t0, e, t1]);
      }
    }
  }

  /** The log of one attempt, and of a second one should the first fail. */
  lemma TriesTell(env: Env, w: World, candidate: BootTable, previous: BootTable, log: seq<Event>, front: seq<Event>)
    requires w.history.log == log + front
    ensures var (verified, w4) := Commit(env, w, candidate);
      var a := AttemptOf(env, w, candidate);
      && a.table == candidate && Read(a) && verified == Durable(a)
      && w4.history.log == log + (front + Events(a)) + []
      && var (restored, w5) := Commit(env, w4, previous);
      var b := AttemptOf(env, w4, previous);
      && b.table == previous && Read(b) && restored == Durable(b)
      && w5.history.log == log + (front + Events(a) + Events(b))
  {
    hide Late, Milliseconds, Commit, Durable, AttemptOf, Events;
    CommitTells(env, w, candidate);
    var w4 := Commit(env, w, candidate).1;
    CommitTells(env, w4, previous);
    var a, b := Events(AttemptOf(env, w, candidate)), Events(AttemptOf(env, w4, previous));
    assert (log + front) + a == log + (front + a);
    assert w4.history.log == log + (front + a);
    assert (log + (front + a)) + b == log + ((front + a) + b);
    assert log + (front + a) + [] == log + (front + a);
  }

  // ----- the log determines the course

  lemma AttemptFromEvents(a: Attempt, b: Attempt, xs: seq<Event>, ys: seq<Event>)
    requires Read(a) && Read(b) && Events(a) + xs == Events(b) + ys
    ensures a == b && xs == ys
  {
    var l, r := Events(a) + xs, Events(b) + ys;
    forall i | 0 <= i < 6
      ensures Events(a)[i] == Events(b)[i]
    {
      assert l[i] == Events(a)[i] && r[i] == Events(b)[i];
    }
    assert Events(a)[0] == Events(b)[0] && Events(a)[1] == Events(b)[1] && Events(a)[2] == Events(b)[2];
    assert Events(a)[3] == Events(b)[3] && Events(a)[4] == Events(b)[4] && Events(a)[5] == Events(b)[5];
    if a.primary.Some? {
      assert l[6] == Events(a)[6] && r[6] == Events(b)[6];
    }
    assert xs == l[|Events(a)|..] && ys == r[|Events(b)|..];
  }

  /** Different right courses leave different logs, so the log alone tells which one was taken. */
  lemma CourseFromLog(s: Activation, t: Activation, candidate: BootTable)
    requires Right(s, candidate) && Right(t, candidate) && Course(s) == Course(t)
    ensures s == t
  {
    hide Late, Milliseconds, Durable, Events;
    var l, r := Course(s), Course(t);
    assert l[0] == r[0] && l[1] == r[1];
    if !s.Unread? && !t.Unread? {
      assert l[2] == r[2];
      var a := if s.Slow? then [] else if s.Kept? then Events(s.attempt) else Events(s.attempt) + Events(s.restore);
      var b := if t.Slow? then [] else if t.Kept? then Events(t.attempt) else Events(t.attempt) + Events(t.restore);
      assert a == l[3..] && b == r[3..];
      if !s.Slow? && !t.Slow? {
        var xs, ys := if s.Kept? then [] else Events(s.restore), if t.Kept? then [] else Events(t.restore);
        assert Events(s.attempt) + xs == a && Events(t.attempt) + ys == b;
        AttemptFromEvents(s.attempt, t.attempt, xs, ys);
        if s.RolledBack? && t.RolledBack? {
          AttemptFromEvents(s.restore, t.restore, [], []);
        }
      }
    }
  }

  /** `after` is the log `before` with a consumed token, the course `s`, and the error it ended in, if any. */
  predicate Tells(s: Activation, candidate: BootTable, generation: uint32, sha256: seq<byte>, before: seq<Event>,
                  after: Outcome)
  {
    hide Right, Course;
    && Right(s, candidate)
    && after.world.history.log == before + [Consumed(generation, sha256)] + Course(s) + Closing(after.error)
  }

  lemma TellsOne(s: Activation, t: Activation, candidate: BootTable, generation: uint32, sha256: seq<byte>,
                 before: seq<Event>, after: Outcome)
    requires Tells(s, candidate, generation, sha256, before, after)
    requires Tells(t, candidate, generation, sha256, before, after)
    ensures s == t
  {
    hide Right, Course;
    var front, end := before + [Consumed(generation, sha256)], Closing(after.error);
    var log := after.world.history.log;
    assert Course(s) == log[|front|..|log| - |end|] && Course(t) == log[|front|..|log| - |end|];
    CourseFromLog(s, t, candidate);
  }
}

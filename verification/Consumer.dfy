/** The analytics consumer process: fetch, handle or dead-letter, and only then commit the offset. */
module Consumer {
  import opened Wrappers
  import opened Events
  import opened Pipeline
  import O = Outbox
  import A = Analytics

  lemma {:induction false} RunAppends(s: Sys, actions: seq<Action>, more: seq<Action>)
    ensures Run(s, actions + more) == Run(Run(s, actions), more)
    decreases |more|
  {
    var all := actions + more;
    if more == [] {
      assert all == actions;
    } else {
      var n := |more| - 1;
      assert all[..|all| - 1] == actions + more[..n] && all[|all| - 1] == more[n];
      RunAppends(s, actions, more[..n]);
    }
  }

  lemma Step(s: Sys, trace: seq<Action>, action: Action)
    ensures Run(s, trace + [action]) == Apply(Run(s, trace), action)
  {
    RunAppends(s, trace, [action]);
    assert [action][..0] == [];
  }

  lemma {:induction false} RunKeepsInv(s: Sys, actions: seq<Action>)
    requires Inv(s)
    ensures Inv(Run(s, actions))
    decreases |actions|
  {
    if actions != [] {
      RunKeepsInv(s, actions[..|actions| - 1]);
      ActionKeeps(Run(s, actions[..|actions| - 1]), actions[|actions| - 1]);
    }
  }

  /** Everything the consumer can reach, with the read model's tables as a store. */
  class World {
    const db: A.AnalyticsDb
    var outbox: O.Sys
    var committed: nat
    var sessions: map<Id, Session>
    var deadLetters: set<nat>
    var submitted: map<Id, ReviewEvent>

    function State(): Sys
      reads this, db
    {
      Sys(outbox, db.State(), committed, sessions, deadLetters, submitted)
    }

    constructor (s: Sys)
      ensures State() == s && fresh(db)
    {
      db := new A.AnalyticsDb(s.tables);
      outbox, committed, sessions, deadLetters, submitted :=
        s.outbox, s.committed, s.sessions, s.deadLetters, s.submitted;
    }

    /** Any actions of other processes: submissions, publishers, other consumers. */
    method Others(actions: seq<Action>)
      modifies this, db
      ensures State() == Run(old(State()), actions)
    {
      var s := Run(State(), actions);
      db.consumptions, db.records, db.stats := s.tables.consumptions, s.tables.records, s.tables.stats;
      outbox, committed, sessions, deadLetters, submitted :=
        s.outbox, s.committed, s.sessions, s.deadLetters, s.submitted;
    }

    /** Starts where the group last committed. */
    method Subscribe(c: Id)
      modifies this
      ensures State() == Apply(old(State()), Start(c))
    {
      sessions := sessions[c := Session(committed, false)];
    }

    method CommitMessage(c: Id)
      requires c in sessions && sessions[c].done
      modifies this
      ensures State() == Apply(old(State()), Commit(c))
      ensures c in sessions && sessions[c] == Session(old(sessions)[c].pos + 1, false)
      ensures committed == sessions[c].pos
    {
      committed := sessions[c].pos + 1;
      sessions := sessions[c := Session(committed, false)];
    }

    /** Applies one message's effect, or dead-letters it; false when it must be fetched again later. */
    method ApplyMessage(c: Id) returns (ok: bool)
      requires c in sessions && !sessions[c].done && sessions[c].pos < |outbox.log|
      modifies this, db
      ensures State() == Apply(old(State()), Handle(c))
      ensures c in sessions && sessions[c] == Session(old(sessions)[c].pos, ok)
      ensures ok == HandleMessage(old(State()), old(sessions)[c].pos).1
    {
      var pos := sessions[c].pos;
      var m := outbox.log[pos];
      ok := true;
      if m.topic == REVIEW_TOPIC {
        match m.payload {
          case Review(e) =>
            if Valid(e) {
              var outcome := db.HandleReviewEvent(e);
              ok := outcome == A.Counted || outcome == A.Skipped;
            } else {
              deadLetters := deadLetters + {pos};
            }
          case _ => deadLetters := deadLetters + {pos};
        }
      }
      sessions := sessions[c := Session(pos, ok)];
    }

    /** The effect of one message, then time for others to act before its offset is committed. */
    method ApplyAndYield(c: Id, others: seq<Action>) returns (ok: bool, ghost trace: seq<Action>)
      requires c in sessions && !sessions[c].done && sessions[c].pos < |outbox.log|
      requires forall i | 0 <= i < |others| :: LeavesSession(others[i], c)
      modifies this, db
      ensures State() == Run(old(State()), trace)
      ensures c in sessions && sessions[c] == Session(old(sessions)[c].pos, ok)
      ensures ok == HandleMessage(old(State()), old(sessions)[c].pos).1
      ensures trace == [Handle(c)] + others
    {
      ghost var s := State();
      ok := ApplyMessage(c);
      HandleThenOthers(s, c, others);
      Others(others);
      trace := [Handle(c)] + others;
    }

    /**
     Handles the message at the session's position. Success means its effect is in the tables and its offset
     was committed after it; whatever fails or gets lost, nothing is committed that was not handled. A message
     that cannot be handled fails every time and leaves its offset uncommitted.
     */
    method HandleNext(c: Id, handle: Fate, commit: Fate, others: seq<Action>)
      returns (ok: bool, ghost trace: seq<Action>)
      requires c in sessions && !sessions[c].done && sessions[c].pos < |outbox.log|
      requires forall i | 0 <= i < |others| :: LeavesSession(others[i], c)
      modifies this, db
      ensures State() == Run(old(State()), trace)
      ensures ok <==>
        handle == Answered && commit == Answered && HandleMessage(old(State()), old(sessions)[c].pos).1
      ensures trace ==
        if handle == Rejected then []
        else if handle == Answered && commit != Rejected && HandleMessage(old(State()), old(sessions)[c].pos).1 then
          [Handle(c)] + others + [Commit(c)]
        else [Handle(c)] + others
      ensures ok ==>
        && c in sessions && sessions[c] == Session(old(sessions)[c].pos + 1, false)
        && committed == sessions[c].pos
    {
      trace := [];
      if handle == Rejected {
        return false, trace;
      }
      ghost var s := State();
      var handled;
      handled, trace := ApplyAndYield(c, others);
      if !handled || handle == AnswerLost || commit == Rejected {
        return false, trace;
      }
      CommitMessage(c);
      Step(s, trace, Commit(c));
      trace := trace + [Commit(c)];
      ok := commit == Answered;
    }
  }

  /** Handling one message and what others do next. */
  lemma HandleThenOthers(s: Sys, c: Id, others: seq<Action>)
    requires c in DoHandle(s, c).sessions
    requires forall i | 0 <= i < |others| :: LeavesSession(others[i], c)
    ensures var s' := Run(DoHandle(s, c), others);
      && s' == Run(s, [Handle(c)] + others)
      && c in s'.sessions && s'.sessions[c] == DoHandle(s, c).sessions[c]
  {
    Step(s, [], Handle(c));
    assert [] + [Handle(c)] == [Handle(c)];
    RunAppends(s, [Handle(c)], others);
    SessionStays(DoHandle(s, c), others, c);
  }

  /** Other processes do not act in this process's name. */
  predicate LeavesSession(a: Action, c: Id) {
    match a
    case Start(d) => d != c
    case Handle(d) => d != c
    case Commit(d) => d != c
    case _ => true
  }

  lemma {:induction false} SessionStays(s: Sys, actions: seq<Action>, c: Id)
    requires c in s.sessions && forall i | 0 <= i < |actions| :: LeavesSession(actions[i], c)
    ensures c in Run(s, actions).sessions && Run(s, actions).sessions[c] == s.sessions[c]
    decreases |actions|
  {
    if actions != [] {
      SessionStays(s, actions[..|actions| - 1], c);
    }
  }

  /**
   Consumes messages one after the other until a call fails, a message cannot be handled, or the given number
   is done. On a consistent log only a failing call stops it, and everything it passed is handled.
   */
  method Consume(w: World, c: Id, most: nat, fates: nat -> (Fate, Fate), others: nat -> seq<Action>)
    returns (ok: bool, done: nat, ghost trace: seq<Action>)
    requires forall i, k | 0 <= k < |others(i)| :: LeavesSession(others(i)[k], c)
    modifies w, w.db
    ensures w.State() == Run(old(w.State()), trace)
    ensures ok ==> done == most || old(w.committed) + done >= |w.outbox.log|
    ensures ok && Inv(old(w.State())) ==> HandledBelow(w.State(), old(w.committed) + done)
    ensures Inv(old(w.State())) && (forall i :: fates(i) == (Answered, Answered)) ==> ok
  {
    ghost var s := w.State();
    w.Subscribe(c);
    trace := [Start(c)];
    Step(s, [], Start(c));
    assert [] + trace == trace;
    ok, done := true, 0;
    while ok && done < most && w.sessions[c].pos < |w.outbox.log|
      invariant w.State() == Run(s, trace)
      invariant ok ==> c in w.sessions && w.sessions[c] == Session(s.committed + done, false)
      invariant done <= most
      invariant Inv(s) && (forall i :: fates(i) == (Answered, Answered)) ==> ok
      decreases ok, most - done
    {
      ghost var s1 := w.State();
      ghost var rest;
      var (handle, commit) := fates(done);
      HandlesIfConsistent(s, trace, s1.sessions[c].pos);
      ok, rest := w.HandleNext(c, handle, commit, others(done));
      RunAppends(s, trace, rest);
      trace := trace + rest;
      if ok {
        done := done + 1;
      }
    }
    if Inv(s) {
      RunKeepsInv(s, trace);
      assert ok ==> SessionSound(w.State(), w.sessions[c]);
    }
  }

  lemma HandlesIfConsistent(s: Sys, trace: seq<Action>, pos: nat)
    requires pos < |Run(s, trace).outbox.log|
    ensures Inv(s) ==> HandleMessage(Run(s, trace), pos).1
  {
    if Inv(s) {
      RunKeepsInv(s, trace);
      HandlingSucceeds(Run(s, trace), pos);
    }
  }

  /** A log with two reviews under one number, as only a foreign publisher can leave it. */
  function TwiceReviewed(s: Sys): Sys {
    s.(tables := A.EMPTY, committed := 0, sessions := map[],
       outbox := s.outbox.(log := [ReviewMessage(A.ONE_REVIEW), ReviewMessage(A.ITS_RIVAL)]))
  }

  lemma Undisturbed(s: Sys, c: Id)
    ensures Run(s, [Handle(c)] + []) == DoHandle(s, c)
    ensures Run(s, [Handle(c)] + [] + [Commit(c)]) == DoCommit(DoHandle(s, c), c)
  {
    Step(s, [], Handle(c));
    assert [] + [Handle(c)] == [Handle(c)] + [] == [Handle(c)];
    Step(s, [Handle(c)] + [], Commit(c));
  }

  lemma RivalFails(s: Sys, c: Id)
    requires s.outbox.log == TwiceReviewed(s).outbox.log && c in s.sessions
    ensures s.tables == A.EMPTY && s.sessions[c] == Session(0, false) ==>
      var s' := DoCommit(DoHandle(s, c), c);
      && HandleMessage(s, 0).1 && s'.committed == 1 && s'.outbox == s.outbox
      && s'.tables == A.HandleReview(A.EMPTY, A.ONE_REVIEW).0
    ensures s.tables == A.HandleReview(A.EMPTY, A.ONE_REVIEW).0 && s.sessions[c] == Session(1, false) ==>
      !HandleMessage(s, 1).1 && DoHandle(s, c) == s
  {
    A.SameReviewNumberFails();
    assert s.sessions[c := s.sessions[c]] == s.sessions;
  }

  /** Every call is answered and nobody interferes, and still the second message stops the consumer each time. */
  method StopsOnForeignReview(s: Sys, c: Id)
    returns (first: bool, second: bool, again: bool, committed: nat, records: map<Id, A.Record>)
    ensures first && !second && !again && committed == 1
    ensures records == map[A.ONE_REVIEW.eventId := A.RecordOf(A.ONE_REVIEW)]
  {
    A.SameReviewNumberFails();
    ghost var trace;
    var w := new World(TwiceReviewed(s));
    w.Subscribe(c);
    RivalFails(w.State(), c);
    Undisturbed(w.State(), c);
    first, trace := w.HandleNext(c, Answered, Answered, []);
    RivalFails(w.State(), c);
    Undisturbed(w.State(), c);
    second, trace := w.HandleNext(c, Answered, Answered, []);
    w.Subscribe(c);
    Undisturbed(w.State(), c);
    again, trace := w.HandleNext(c, Answered, Answered, []);
    committed, records := w.committed, w.db.records;
  }
}

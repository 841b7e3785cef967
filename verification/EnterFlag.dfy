/**
 * The flag enter_pressed (keyboard.c, terminal_read of terminal.c): one for all three
 * terminals.  A terminal is due when Enter has been pressed there since it last read a line;
 * with a flag of its own it would be released exactly then.
 */
module EnterFlag {
  import opened Console
  import opened Limits
  import Rofs
  import opened Terminals
  import Together

  datatype Shared = Shared(desk: Desk, pressed: bool, due: set<int>)

  ghost predicate CanHappen(s: Shared, e: Event) {
    && s.desk.Ok() && EventAllowed(s.desk, e)
    && (e.Local? && e.op.Read? ==> s.pressed)
  }

  function After(s: Shared, e: Event): (r: Shared)
    requires s.desk.Ok() && EventAllowed(s.desk, e)
    ensures r.desk.Ok()
  {
    Shared(Step(s.desk, e), Pressed(s.pressed, e),
      if e.Local? && e.op.EnterKey? then s.due + {s.desk.cur}
      else if e.Local? && e.op.Read? then s.due - {s.desk.cur}
      else s.due)
  }

  /** A run in which no read returns before the flag is set. */
  ghost predicate Possible(s: Shared, es: seq<Event>)
    requires s.desk.Ok()
    decreases |es|
  {
    es == [] || (CanHappen(s, es[0]) && Possible(After(s, es[0]), es[1..]))
  }

  function AfterAll(s: Shared, es: seq<Event>): (r: Shared)
    requires s.desk.Ok() && RunAllowed(s.desk, es)
    decreases |es|
  {
    if es == [] then s else AfterAll(After(s, es[0]), es[1..])
  }

  /** A read of the current terminal would return exactly if Enter was pressed there since its last one. */
  predicate Right(s: Shared) {
    s.pressed <==> s.desk.cur in s.due
  }

  ghost predicate RightAlong(s: Shared, es: seq<Event>)
    requires s.desk.Ok() && Possible(s, es)
    decreases |es|
  {
    Right(s) && (es == [] || RightAlong(After(s, es[0]), es[1..]))
  }

  /** Nobody leaves a terminal while the flag is set. */
  ghost predicate Calm(s: Shared, es: seq<Event>)
    requires s.desk.Ok() && Possible(s, es)
    decreases |es|
  {
    es == [] || (
      && (Step(s.desk, es[0]).cur != s.desk.cur ==> !s.pressed)
      && Calm(After(s, es[0]), es[1..]))
  }

  /** At most the current terminal is due, and then the flag is set. */
  predicate InOrder(s: Shared) {
    s.due == if s.pressed then {s.desk.cur} else {}
  }

  /**
   * Reads are released by their own terminal's Enter, and by every one, all along a run
   * exactly when nobody leaves a terminal while the flag is set.
   */
  lemma {:induction false} RightAlongIff(s: Shared, es: seq<Event>)
    requires s.desk.Ok() && Possible(s, es) && InOrder(s)
    ensures RightAlong(s, es) <==> Calm(s, es)
    decreases |es|
  {
    hide Step, EventAllowed, Desk.Ok;
    if es != [] {
      var u := After(s, es[0]);
      if u.desk.cur == s.desk.cur || !s.pressed {
        StaysInOrder(s, es[0]);
        RightAlongIff(u, es[1..]);
      } else {
        LeavingIsSwitch(s.desk, es[0]);
      }
    }
  }

  lemma {:induction false} LeavingIsSwitch(d: Desk, e: Event)
    requires d.Ok() && EventAllowed(d, e) && Step(d, e).cur != d.cur
    ensures e.Switch?
  {
  }

  lemma {:induction false} StaysInOrder(s: Shared, e: Event)
    requires CanHappen(s, e) && InOrder(s) && (Step(s.desk, e).cur != s.desk.cur ==> !s.pressed)
    ensures InOrder(After(s, e))
  {
  }

  /** From the flag alone one can say only this: some terminal is due. */
  lemma {:induction false} PressedMeansSomeDue(s: Shared, es: seq<Event>)
    requires s.desk.Ok() && Possible(s, es) && (s.pressed ==> s.due != {})
    ensures RunAllowed(s.desk, es)
    ensures AfterAll(s, es).pressed ==> AfterAll(s, es).due != {}
    decreases |es|
  {
    hide Step, EventAllowed, Desk.Ok;
    if es != [] {
      PressedMeansSomeDue(After(s, es[0]), es[1..]);
    }
  }

  /**
   * Enter on one launched terminal, a switch to another and a read there: the read returns
   * though nothing was entered there; back on the first terminal, its Enter is lost.
   */
  lemma {:induction false} ForeignEnter(s: Shared, term: int, nbytes: int)
    requires s.desk.Ok() && InOrder(s) && !s.pressed && 1 <= term <= MAX_TERMINALS && term != s.desk.cur
    requires s.desk.launched[term - 1] && s.desk.launched[s.desk.cur - 1]
    requires Allowed(s.desk.consoles[term - 1], Read(nbytes))
    ensures var home := s.desk.cur;
            var before := [Local(EnterKey), Switch(term, true)];
            var after := before + [Local(Read(nbytes)), Switch(home, true)];
            && Possible(s, after) && RunAllowed(s.desk, before) && RunAllowed(s.desk, after)
            && (var u := AfterAll(s, before); u.desk.cur == term && u.pressed && term !in u.due)
            && (var u := AfterAll(s, after); u.desk.cur == home && !u.pressed && home in u.due)
  {
    hide Apply, Console.State.Ok;
    var home := s.desk.cur;
    var e0, e1, e2, e3 := Local(EnterKey), Switch(term, true), Local(Read(nbytes)), Switch(home, true);
    var s1 := After(s, e0);
    var s2 := After(s1, e1);
    var s3 := After(s2, e2);
    var s4 := After(s3, e3);
    RunOfTwo(s2, e2, e3);
    RunOfTwo(s, e0, e1);
    var before := [e0, e1];
    var after := before + [e2, e3];
    assert after[1..] == [e1, e2, e3] && [e1, e2, e3][1..] == [e2, e3];
    assert Possible(s1, [e1, e2, e3]) && RunAllowed(s1.desk, [e1, e2, e3]);
    assert AfterAll(s1, [e1, e2, e3]) == s4;
  }

  lemma {:induction false} RunOfTwo(s: Shared, e: Event, f: Event)
    requires CanHappen(s, e) && CanHappen(After(s, e), f)
    ensures Possible(s, [e, f]) && RunAllowed(s.desk, [e, f]) && AfterAll(s, [e, f]) == After(After(s, e), f)
  {
    hide Step, EventAllowed, Desk.Ok;
    assert [e, f][1..] == [f] && [f][1..] == [];
    var u := After(s, e);
    assert Possible(After(u, f), []) && RunAllowed(Step(u.desk, f), []);
    assert Possible(u, [f]) && RunAllowed(u.desk, [f]);
    assert AfterAll(u, [f]) == AfterAll(After(u, f), []) == After(u, f);
  }

  // ----- with the processes -----

  /** On this run of processes and consoles nobody leaves a terminal while the flag is set. */
  ghost predicate JointCalm(img: Rofs.Image, s: Together.State, es: seq<Together.Event>)
    requires Rofs.WellFormed(img) && Together.Ok(s) && Together.RunAllowed(img, s, es)
    decreases |es|
  {
    es == [] || (
      && (Together.Step(img, s, es[0]).desk.cur != s.desk.cur ==> !s.pressed)
      && JointCalm(img, Together.Step(img, s, es[0]), es[1..]))
  }

  /** One joint step is at most one event for the consoles, and does to the flag what that event does. */
  lemma {:induction false} JointStep(img: Rofs.Image, s: Together.State, e: Together.Event, due: set<int>)
    requires Rofs.WellFormed(img) && Together.Ok(s) && Together.EventAllowed(s, e)
    ensures var n, u, v := Together.Noticed(img, s, e), Together.Step(img, s, e), Shared(s.desk, s.pressed, due);
            if n == [] then u.desk == s.desk && u.pressed == s.pressed
            else
              && |n| == 1 && CanHappen(v, n[0])
              && After(v, n[0]) == Shared(u.desk, u.pressed, After(v, n[0]).due)
              && u.desk == Step(s.desk, n[0])
  {
    hide Step, EventAllowed;
    Together.NoticedAllowed(img, s, e);
  }

  /** The part of a joint run that the consoles notice is possible, and leaves one as calm as the other. */
  lemma {:induction false} JointRun(img: Rofs.Image, s: Together.State, es: seq<Together.Event>, due: set<int>)
    requires Rofs.WellFormed(img) && Together.Ok(s) && Together.RunAllowed(img, s, es)
    ensures var v, n, r := Shared(s.desk, s.pressed, due), Together.AllNoticed(img, s, es), Together.Run(img, s, es);
            && Possible(v, n) && RunAllowed(s.desk, n)
            && AfterAll(v, n).desk == r.desk && AfterAll(v, n).pressed == r.pressed
            && (Calm(v, n) <==> JointCalm(img, s, es))
    decreases |es|
  {
    hide Step, EventAllowed, Desk.Ok, Together.Ok, Together.Step, Together.EventAllowed, Together.Noticed,
      Rofs.WellFormed;
    if es != [] {
      var v, n, u := Shared(s.desk, s.pressed, due), Together.Noticed(img, s, es[0]), Together.Step(img, s, es[0]);
      var rest := Together.AllNoticed(img, u, es[1..]);
      JointStep(img, s, es[0], due);
      if n == [] {
        assert n + rest == rest;
        JointRun(img, u, es[1..], due);
      } else {
        assert (n + rest)[0] == n[0] && (n + rest)[1..] == rest;
        JointRun(img, u, es[1..], After(v, n[0]).due);
      }
    }
  }

  /**
   * So on every joint run from start-up, too, reads are released by their own terminal's
   * Enter, and by every one, exactly when nobody leaves a terminal while the flag is set.
   */
  lemma {:induction false} JointRightAlongIff(img: Rofs.Image, s: Together.State, es: seq<Together.Event>)
    requires Rofs.WellFormed(img) && Together.Ok(s) && Together.RunAllowed(img, s, es) && !s.pressed
    ensures var v, n := Shared(s.desk, false, {}), Together.AllNoticed(img, s, es);
            Possible(v, n) && (RightAlong(v, n) <==> JointCalm(img, s, es))
  {
    JointRun(img, s, es, {});
    RightAlongIff(Shared(s.desk, false, {}), Together.AllNoticed(img, s, es));
  }
}

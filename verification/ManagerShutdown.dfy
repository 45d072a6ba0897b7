/** Close, one session at a time: the loop over the table adds up to the one step of the machine. */
module ManagerShutdown {
  import opened Collections
  import opened ManagerModel
  import opened ManagerInvariant

  // ----- how far Close has come: the sessions named in `remaining` are still to be emptied -----

  function PartlyClosed(s: State, remaining: set<string>): State
    requires TableInv(s)
  {
    s.(closed := true, sessions := map[],
       all := seq(|s.all|, x requires 0 <= x < |s.all| =>
         if s.all[x].config.id in remaining then s.all[x] else Emptied(s, x)),
       launches := seq(|s.launches|, l requires 0 <= l < |s.launches| =>
         if s.all[s.launches[l].session].config.id in remaining then s.launches[l] else Awakened(s, l)),
       timers := seq(|s.timers|, t requires 0 <= t < |s.timers| =>
         if s.all[s.timers[t].session].config.id in remaining then s.timers[t] else Stopped(s, t)),
       cleanups := s.cleanups + (set x | 0 <= x < |s.all| && InTable(s, x) && s.all[x].config.id !in remaining ::
         Held(s, x)))
  }

  lemma CloseBegins(s: State)
    requires Inv(s) && !s.closed
    ensures PartlyClosed(s, s.sessions.Keys) == s.(closed := true, sessions := map[])
  {
    var p := PartlyClosed(s, s.sessions.Keys);
    assert p.all == s.all && p.launches == s.launches && p.timers == s.timers && p.cleanups == s.cleanups;
  }

  lemma CloseEnds(s: State)
    requires Inv(s) && !s.closed
    ensures PartlyClosed(s, {}) == CloseStep(s)
  {
    var p := PartlyClosed(s, {});
    var c := CloseStep(s);
    assert p.all == c.all && p.launches == c.launches && p.timers == c.timers && p.cleanups == c.cleanups;
  }

  lemma EmptiesRecord(s: State, remaining: set<string>, id: string)
    requires Inv(s) && id in remaining && id in s.sessions
    ensures var x := s.sessions[id]; var p := PartlyClosed(s, remaining);
      p.all[x] == s.all[x]
      && PartlyClosed(s, remaining - {id}).all
        == p.all[x := s.all[x].(starting := None, process := None, client := None, cancel := None)]
  {
    assert SessionInv(s, s.sessions[id]);
    assert PartlyClosed(s, remaining - {id}).all == PartlyClosed(s, remaining).all[s.sessions[id] :=
      s.all[s.sessions[id]].(starting := None, process := None, client := None, cancel := None)];
  }

  lemma EmptiesLaunches(s: State, remaining: set<string>, id: string)
    requires Inv(s) && id in remaining && id in s.sessions
    ensures PartlyClosed(s, remaining - {id}).launches
      == Wake(PartlyClosed(s, remaining).launches, s.all[s.sessions[id]].starting)
  {
    assert SessionInv(s, s.sessions[id]);
    assert PartlyClosed(s, remaining - {id}).launches
      == Wake(PartlyClosed(s, remaining).launches, s.all[s.sessions[id]].starting);
  }

  lemma EmptiesTimers(s: State, remaining: set<string>, id: string)
    requires Inv(s) && id in remaining && id in s.sessions
    ensures PartlyClosed(s, remaining - {id}).timers
      == StopTimer(PartlyClosed(s, remaining).timers, s.all[s.sessions[id]].timer)
  {
    assert SessionInv(s, s.sessions[id]);
    assert PartlyClosed(s, remaining - {id}).timers
      == StopTimer(PartlyClosed(s, remaining).timers, s.all[s.sessions[id]].timer);
  }

  lemma EmptiesCleanups(s: State, remaining: set<string>, id: string)
    requires Inv(s) && id in remaining && id in s.sessions
    ensures PartlyClosed(s, remaining - {id}).cleanups
      == PartlyClosed(s, remaining).cleanups + {Held(s, s.sessions[id])}
  {
    var x := s.sessions[id];
    var p := PartlyClosed(s, remaining).cleanups;
    var q := PartlyClosed(s, remaining - {id}).cleanups;
    assert InTable(s, x);
    forall c | c in q ensures c in p + {Held(s, x)} {
      if c !in s.cleanups {
        var y :| 0 <= y < |s.all| && InTable(s, y) && s.all[y].config.id !in remaining - {id} && c == Held(s, y);
      }
    }
  }

  /** Emptying one more session takes Close one step further. */
  lemma EmptiesOne(s: State, remaining: set<string>, id: string)
    requires Inv(s) && id in remaining && id in s.sessions
    ensures var x := s.sessions[id]; var p := PartlyClosed(s, remaining);
      && p.all[x] == s.all[x]
      && PartlyClosed(s, remaining - {id}) == p.(
           all := p.all[x := s.all[x].(starting := None, process := None, client := None, cancel := None)],
           launches := Wake(p.launches, s.all[x].starting),
           timers := StopTimer(p.timers, s.all[x].timer),
           cleanups := p.cleanups + {Held(s, x)})
  {
    EmptiesRecord(s, remaining, id);
    EmptiesLaunches(s, remaining, id);
    EmptiesTimers(s, remaining, id);
    EmptiesCleanups(s, remaining, id);
  }
}

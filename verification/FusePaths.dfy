/** Building runs of the fuse step by step. */
module FusePaths {
  import opened FuseCeilings
  import opened FuseLog
  import opened FuseProtocol
  import opened FuseRuns
  import opened FuseBursts

  /** One step. */
  ghost predicate Leads(cfg: Config, s: State, ev: Event, t: State)
    requires cfg.Valid()
  {
    Shape(s) && Shape(t) && Enabled(cfg, s, ev) && Next(cfg, s, ev) == t
  }

  /** Runs of one, two and three steps. */
  lemma OneLeads(cfg: Config, s: State, a: Event, t: State)
    requires cfg.Valid() && Leads(cfg, s, a, t)
    ensures IsRun(cfg, s, [a]) && End(cfg, s, [a]) == t
  {
    assert [a][1..] == [];
    assert IsRun(cfg, t, []) && End(cfg, t, []) == t;
  }

  lemma TwoLead(cfg: Config, s: State, a: Event, t: State, b: Event, u: State)
    requires cfg.Valid() && Leads(cfg, s, a, t) && Leads(cfg, t, b, u)
    ensures IsRun(cfg, s, [a, b]) && End(cfg, s, [a, b]) == u
  {
    OneLeads(cfg, t, b, u);
    assert [a, b][1..] == [b];
  }

  lemma {:induction false} Onward(cfg: Config, s: State, evs: seq<Event>, more: seq<Event>)
    requires cfg.Valid() && Shape(s) && IsRun(cfg, s, evs) && IsRun(cfg, End(cfg, s, evs), more)
    ensures IsRun(cfg, s, evs + more) && End(cfg, s, evs + more) == End(cfg, End(cfg, s, evs), more)
    decreases evs
  {
    if evs == [] {
      assert evs + more == more;
    } else {
      StepKeepsShape(cfg, s, evs[0]);
      Onward(cfg, Next(cfg, s, evs[0]), evs[1..], more);
      assert (evs + more)[1..] == evs[1..] + more;
    }
  }

  /** A run with no timer and no passing of time is prompt. */
  ghost predicate Timeless(evs: seq<Event>) {
    forall i :: 0 <= i < |evs| ==> !evs[i].Tick? && !evs[i].Wake?
  }

  lemma {:induction false} TimelessIsPrompt(cfg: Config, s: State, evs: seq<Event>)
    requires cfg.Valid() && Shape(s) && IsRun(cfg, s, evs) && Timeless(evs)
    ensures PromptRun(cfg, s, evs)
    decreases evs
  {
    if evs != [] {
      StepKeepsShape(cfg, s, evs[0]);
      assert Timeless(evs[1..]) by {
        assert forall i :: 0 <= i < |evs[1..]| ==> evs[1..][i] == evs[i + 1];
      }
      TimelessIsPrompt(cfg, Next(cfg, s, evs[0]), evs[1..]);
    }
  }

  lemma {:induction false} OnwardPrompt(cfg: Config, s: State, evs: seq<Event>, more: seq<Event>)
    requires cfg.Valid() && Shape(s) && IsRun(cfg, s, evs) && IsRun(cfg, End(cfg, s, evs), more)
    requires PromptRun(cfg, s, evs) && PromptRun(cfg, End(cfg, s, evs), more)
    ensures IsRun(cfg, s, evs + more) && PromptRun(cfg, s, evs + more)
    decreases evs
  {
    Onward(cfg, s, evs, more);
    if evs == [] {
      assert evs + more == more;
    } else {
      StepKeepsShape(cfg, s, evs[0]);
      OnwardPrompt(cfg, Next(cfg, s, evs[0]), evs[1..], more);
      assert (evs + more)[1..] == evs[1..] + more;
    }
  }

  /** What follows from `s` when call `id` moves on to `stage` with reservation `r`. */
  ghost predicate MovesOn(s: State, t: State, id: nat, stage: Stage, r: Reservation)
    requires id in s.calls
  {
    t == s.(calls := s.calls[id := s.calls[id].(stage := stage)], log := s.log + [r])
  }

  /** One call changes; the in-flight sets change only if it leaves the count. */
  lemma InFlightChange(s: State, t: State, id: nat, chat: int, msg: int)
    requires id in s.calls && id in t.calls && t.calls == s.calls[id := t.calls[id]]
    requires t.calls[id].kind == s.calls[id].kind
    ensures t.calls[id].counted == s.calls[id].counted ==> InFlight(t, chat, msg) == InFlight(s, chat, msg)
    ensures !t.calls[id].counted ==> InFlight(t, chat, msg) == InFlight(s, chat, msg) - {id}
  {
  }

  /** What one more reservation, made now, adds to a window. */
  lemma WindowGrows(cfg: Config, s: State, t: State, r: Reservation, key: Key)
    requires t.log == s.log + [r] && t.now == s.now == r.at
    ensures !Charges(r.lane, key) ==> Window(cfg, t, key) == Window(cfg, s, key)
    ensures Charges(r.lane, key) && Width(cfg, key) >= 1 ==> Window(cfg, t, key) == Window(cfg, s, key) + [r.at]
  {
    LiveAppend(s.log, r, key, s.now - Width(cfg, key));
  }
}

/** Paths: what one thread does while the others stand still. They extend runs of the engine. */
module EnginePaths {
  import opened Messages
  import opened Rings
  import opened WindowLists
  import opened Engine

  predicate Leads(v: View, a: Action, w: View) {
    Enabled(v, a) && Do(v, a) == w
  }

  ghost predicate IsPath(views: seq<View>, actions: seq<Action>) {
    |views| == |actions| + 1 && forall i :: 0 <= i < |actions| ==> Leads(views[i], actions[i], views[i + 1])
  }

  predicate Unlocked(v: View) {
    WellFormed(v) && v.locks == Locks(None, None, None)
  }

  lemma JoinPaths(views: seq<View>, actions: seq<Action>, views': seq<View>, actions': seq<Action>)
    requires IsPath(views, actions) && IsPath(views', actions') && Last(views) == views'[0]
    ensures IsPath(views + views'[1..], actions + actions')
    ensures Last(views + views'[1..]) == Last(views')
  {
    hide Leads;
    var all, acts := views + views'[1..], actions + actions';
    forall i | 0 <= i < |acts|
      ensures Leads(all[i], acts[i], all[i + 1])
    {
      if i >= |actions| {
        assert all[i] == views'[i - |actions|] && all[i + 1] == views'[i - |actions| + 1];
      }
    }
  }

  /** A run from s0 to s. */
  ghost predicate Reaches(s0: State, states: seq<State>, steps: seq<Step>, s: State) {
    IsRun(states, steps) && states[0] == s0 && Last(states) == s
  }

  lemma ReachesInit(s: State)
    requires Init(s)
    ensures Reaches(s, [s], [], s)
  {
  }

  lemma ExtendStep(s0: State, states: seq<State>, steps: seq<Step>, s: State, t: Tid, a: Action)
      returns (states': seq<State>, steps': seq<Step>)
    requires Reaches(s0, states, steps, s) && CanStep(s, t, a)
    ensures Reaches(s0, states', steps', Next(s, t, a))
    ensures steps' == steps + [Step(t, a)]
  {
    hide Init, CanStep, Next;
    states', steps' := states + [Next(s, t, a)], steps + [Step(t, a)];
  }

  lemma MeStays(v: View, a: Action)
    requires Enabled(v, a)
    ensures Do(v, a).me == v.me
  {
    hide Contents, Full, Rings.Valid, Mark, Without;
  }

  lemma MergeTwice(s: State, v: View, w: View)
    requires v.me == w.me
    ensures Merge(Merge(s, v), w) == Merge(s, w)
    ensures v.me in Merge(s, v).threads && ViewOf(Merge(s, v), v.me) == v
  {
    assert s.threads[v.me := v.th][v.me := w.th] == s.threads[v.me := w.th];
  }

  /** A path of one thread, taken from a state of a run, goes on with the run. */
  lemma {:induction false} ExtendPath(s0: State, states: seq<State>, steps: seq<Step>, s: State, t: Tid,
                                      views: seq<View>, actions: seq<Action>)
      returns (states': seq<State>, steps': seq<Step>)
    requires Reaches(s0, states, steps, s) && t in s.threads
    requires IsPath(views, actions) && views[0] == ViewOf(s, t)
    ensures Last(views).me == t && Reaches(s0, states', steps', Merge(s, Last(views)))
    decreases |actions|
  {
    hide Do, Enabled, Reaches;
    if actions == [] {
      states', steps' := states, steps;
      assert s.threads[t := s.threads[t]] == s.threads;
    } else {
      assert Leads(views[0], actions[0], views[1]);
      MeStays(views[0], actions[0]);
      states', steps' := ExtendStep(s0, states, steps, s, t, actions[0]);
      MergeTwice(s, views[1], views[1]);
      PathTail(views, actions);
      states', steps' := ExtendPath(s0, states', steps', Merge(s, views[1]), t, views[1..], actions[1..]);
      MergeTwice(s, views[1], Last(views));
    }
  }

  lemma PathTail(views: seq<View>, actions: seq<Action>)
    requires IsPath(views, actions) && actions != []
    ensures IsPath(views[1..], actions[1..]) && Last(views[1..]) == Last(views)
  {
    hide Leads;
    forall i | 0 <= i < |actions[1..]|
      ensures Leads(views[1..][i], actions[1..][i], views[1..][i + 1])
    {
      assert Leads(views[i + 1], actions[i + 1], views[i + 2]);
    }
  }

  // ---------- paths of Proceed steps only ----------

  ghost predicate Glides(v: View, n: nat, w: View)
    decreases n
  {
    if n == 0 then w == v else Enabled(v, Proceed) && Glides(Do(v, Proceed), n - 1, w)
  }

  lemma {:induction false} GlideJoin(v: View, a: nat, w: View, b: nat, x: View)
    requires Glides(v, a, w) && Glides(w, b, x)
    ensures Glides(v, a + b, x)
    decreases a
  {
    hide Do, Enabled;
    if a > 0 {
      GlideJoin(Do(v, Proceed), a - 1, w, b, x);
    }
  }

  lemma Glide1(v: View, w: View)
    requires Leads(v, Proceed, w)
    ensures Glides(v, 1, w)
  {
    hide Do, Enabled;
    assert Glides(w, 0, w);
  }

  lemma Glide3(v: View, v1: View, v2: View, w: View)
    requires Leads(v, Proceed, v1) && Leads(v1, Proceed, v2) && Leads(v2, Proceed, w)
    ensures Glides(v, 3, w)
  {
    hide Do, Enabled;
    assert Glides(w, 0, w) && Glides(v2, 1, w) && Glides(v1, 2, w);
  }

  lemma {:induction false} ExtendGlide(s0: State, states: seq<State>, steps: seq<Step>, s: State, t: Tid, n: nat, w: View)
      returns (states': seq<State>, steps': seq<Step>)
    requires Reaches(s0, states, steps, s) && t in s.threads && Glides(ViewOf(s, t), n, w)
    ensures w.me == t && Reaches(s0, states', steps', Merge(s, w))
    ensures |steps'| == |steps| + n && steps <= steps'
    ensures forall j :: |steps| <= j < |steps'| ==> steps'[j] == Step(t, Proceed)
    decreases n
  {
    hide Do, Enabled, Reaches;
    if n == 0 {
      states', steps' := states, steps;
      assert s.threads[t := s.threads[t]] == s.threads;
    } else {
      var v1 := Do(ViewOf(s, t), Proceed);
      MeStays(ViewOf(s, t), Proceed);
      states', steps' := ExtendStep(s0, states, steps, s, t, Proceed);
      MergeTwice(s, v1, v1);
      states', steps' := ExtendGlide(s0, states', steps', Merge(s, v1), t, n - 1, w);
      MergeTwice(s, v1, w);
    }
  }

  function Pushed(v: View, m: Message): View
    requires Rings.Valid(v.mail.ring)
  {
    v.(th := v.th.(op := Resting), locks := v.locks.(access := None, system := None),
       mail := v.mail.(ring := Publish(Store(v.mail.ring, m)), tokens := v.mail.tokens + 1),
       log := v.log + [Accepted(m)])
  }

  lemma StoredAtTail(r: Ring, m: Message)
    requires Rings.Valid(r)
    ensures Store(r, m).slots[Store(r, m).tail] == m
  {
  }

  /** The push itself, with both locks held and room in the queue. */
  lemma PushGlide(v: View, m: Message)
    requires WellFormed(v) && v.locks.access == v.locks.system == Some(v.me)
    requires v.th.op == Pushing(PushBody(m)) && !Full(v.mail.ring)
    ensures Glides(v, 5, Pushed(v, m)) && WellFormed(Pushed(v, m))
    ensures Contents(Pushed(v, m).mail.ring) == Contents(v.mail.ring) + [m]
  {
    hide Contents, Full, Rings.Valid, NextIndex;
    var v3 := v.(th := v.th.(op := Pushing(PushUnlock)), log := v.log + [Accepted(m)],
                 mail := v.mail.(ring := Publish(Store(v.mail.ring, m)), tokens := v.mail.tokens + 1));
    PushWrites(v, m, v3);
    PushReleases(v3, Pushed(v, m));
    GlideJoin(v, 3, v3, 2, Pushed(v, m));
  }

  lemma PushWrites(v: View, m: Message, w: View)
    requires WellFormed(v) && v.th.op == Pushing(PushBody(m)) && !Full(v.mail.ring)
    requires w == v.(th := v.th.(op := Pushing(PushUnlock)), log := v.log + [Accepted(m)],
                     mail := v.mail.(ring := Publish(Store(v.mail.ring, m)), tokens := v.mail.tokens + 1))
    ensures Glides(v, 3, w) && WellFormed(w)
    ensures Contents(w.mail.ring) == Contents(v.mail.ring) + [m]
  {
    hide Contents, Full, Rings.Valid, NextIndex;
    StoreInvisible(v.mail.ring, m);
    PublishAppends(Store(v.mail.ring, m));
    StoredAtTail(v.mail.ring, m);
    var v1 := Do(v, Proceed);
    var v2 := Do(v1, Proceed);
    assert Do(v2, Proceed) == w;
    Glide3(v, v1, v2, w);
  }

  lemma PushReleases(v: View, w: View)
    requires WellFormed(v) && v.th.op == Pushing(PushUnlock)
    requires w == v.(th := v.th.(op := Resting), locks := v.locks.(access := None, system := None))
    ensures Glides(v, 2, w)
  {
    hide Contents, Full, Rings.Valid;
    var v1 := Do(v, Proceed);
    Glide1(v, v1);
    Glide1(v1, w);
    GlideJoin(v, 1, v1, 1, w);
  }
}

/** Rolling back precompile mutations when a call frame fails: a stack of
    savepoints against the meaning of a call tree. */
module RevertGuard {

  /** What the interpreter shows the guard, and what precompiles do in between. */
  datatype Event<!S> = Call | Mutate(f: S -> S) | End(ok: bool)

  /** The shared bridge state and the guard's savepoints. */
  datatype Guarded<S> = Guarded(state: S, savepoints: seq<S>)

  function Handle<S>(g: Guarded<S>, e: Event<S>): Guarded<S> {
    match e
    case Call => Guarded(g.state, g.savepoints + [g.state])
    case Mutate(f) => Guarded(f(g.state), g.savepoints)
    case End(ok) =>
      var n := |g.savepoints|;
      if n == 0 then g
      else Guarded(if ok then g.state else g.savepoints[n - 1], g.savepoints[..n - 1])
  }

  function Run<S>(g: Guarded<S>, trace: seq<Event<S>>): Guarded<S> {
    if trace == [] then g else Handle(Run(g, trace[..|trace| - 1]), trace[|trace| - 1])
  }

  class BridgeGlobals<S> {
    var state: S

    constructor (initial: S)
      ensures state == initial
    {
      state := initial;
    }
  }

  class OpenHlRevertGuard<S> {
    const globals: BridgeGlobals<S>
    var savepoints: seq<S>

    function State(): Guarded<S> reads this, globals { Guarded(globals.state, savepoints) }

    constructor (globals: BridgeGlobals<S>)
      ensures State() == Guarded(globals.state, []) && this.globals == globals
    {
      this.globals := globals;
      savepoints := [];
    }

    method Call()
      modifies this
      ensures State() == Handle(old(State()), Event.Call)
    {
      savepoints := savepoints + [globals.state];
    }

    method CallEnd(ok: bool)
      modifies this, globals
      ensures State() == Handle(old(State()), End(ok))
    {
      if |savepoints| == 0 {
        return;
      }
      var snap := savepoints[|savepoints| - 1];
      savepoints := savepoints[..|savepoints| - 1];
      if !ok {
        globals.state := snap;
      }
    }
  }

  // ------------------------------------------------------------- call trees

  /** A transaction as nested frames, each of which succeeds or fails. */
  datatype Action<!S> = Do(f: S -> S) | Frame(body: seq<Action<S>>, ok: bool)

  /** A failed frame contributes nothing, whatever its inner frames did. */
  function Exec<S>(actions: seq<Action<S>>, s: S): S {
    if actions == [] then s
    else
      var s' :=
        match actions[0]
        case Do(f) => f(s)
        case Frame(body, ok) => var inner := Exec(body, s); if ok then inner else s;
      Exec(actions[1..], s')
  }

  function Trace<S>(actions: seq<Action<S>>): seq<Event<S>> {
    if actions == [] then []
    else
      var first :=
        match actions[0]
        case Do(f) => [Mutate(f)]
        case Frame(body, ok) => Enclose(Trace(body), ok);
      first + Trace(actions[1..])
  }

  function Enclose<S>(inner: seq<Event<S>>, ok: bool): seq<Event<S>> { [Call] + inner + [End(ok)] }

  lemma {:induction false} RunAppend<S>(g: Guarded<S>, a: seq<Event<S>>, b: seq<Event<S>>)
    ensures Run(g, a + b) == Run(Run(g, a), b)
  {
    if b == [] {
      assert a + b == a;
    } else {
      assert (a + b)[..|a + b| - 1] == a + b[..|b| - 1];
      RunAppend(g, a, b[..|b| - 1]);
    }
  }

  lemma RunThen<S>(g: Guarded<S>, a: seq<Event<S>>, e: Event<S>)
    ensures Run(g, a + [e]) == Handle(Run(g, a), e)
  {
    assert (a + [e])[..|a|] == a;
  }

  lemma RunFrom<S>(g: Guarded<S>, e: Event<S>, b: seq<Event<S>>)
    ensures Run(g, [e] + b) == Run(Handle(g, e), b)
  {
    RunThen(g, [], e);
    assert [] + [e] == [e];
    RunAppend(g, [e], b);
  }

  lemma HandleEnd<S>(s: S, below: seq<S>, entry: S, ok: bool)
    ensures Handle(Guarded(s, below + [entry]), End(ok)) == Guarded(if ok then s else entry, below)
  {
    assert (below + [entry])[..|below|] == below;
  }

  lemma RunEnclosed<S>(g: Guarded<S>, inner: seq<Event<S>>, ok: bool, s: S)
    requires Run(Handle(g, Call), inner) == Guarded(s, g.savepoints + [g.state])
    ensures Run(g, Enclose(inner, ok)) == Guarded(if ok then s else g.state, g.savepoints)
  {
    HandleEnd(s, g.savepoints, g.state, ok);
    RunFrom(g, Call, inner);
    RunThen(g, [Call] + inner, End(ok));
  }

  /** The savepoint stack computes the call tree's meaning and leaves itself as it
      found it. */
  lemma {:induction false} GuardMeaning<S>(actions: seq<Action<S>>, g: Guarded<S>)
    ensures Run(g, Trace(actions)) == Guarded(Exec(actions, g.state), g.savepoints)
  {
    if actions != [] {
      var rest := actions[1..];
      match actions[0]
      case Do(f) =>
        RunFrom(g, Mutate(f), Trace(rest));
        GuardMeaning(rest, Guarded(f(g.state), g.savepoints));
      case Frame(body, ok) =>
        GuardMeaning(body, Guarded(g.state, g.savepoints + [g.state]));
        RunEnclosed(g, Trace(body), ok, Exec(body, g.state));
        RunAppend(g, Enclose(Trace(body), ok), Trace(rest));
        GuardMeaning(rest, Run(g, Enclose(Trace(body), ok)));
    }
  }

  // -------------------------------------------------- well-bracketed traces

  /** Calls less ends. */
  function Height<S>(trace: seq<Event<S>>): int {
    if trace == [] then 0
    else Height(trace[..|trace| - 1])
         + (match trace[|trace| - 1] case Call => 1 case Mutate(_) => 0 case End(_) => -1)
  }

  ghost predicate WellBracketed<S>(trace: seq<Event<S>>) {
    Height(trace) == 0 && forall n :: 0 <= n <= |trace| ==> Height(trace[..n]) >= 0
  }

  lemma {:induction false} HeightAppend<S>(a: seq<Event<S>>, b: seq<Event<S>>)
    ensures Height(a + b) == Height(a) + Height(b)
  {
    if b == [] {
      assert a + b == a;
    } else {
      assert (a + b)[..|a + b| - 1] == a + b[..|b| - 1];
      HeightAppend(a, b[..|b| - 1]);
    }
  }

  /** The end that matches a call at the front. */
  ghost predicate Matches<S>(trace: seq<Event<S>>, k: nat) {
    && 0 < k < |trace| && trace[0].Call? && trace[k].End? && Height(trace[..k + 1]) == 0
    && forall n :: 1 <= n <= k ==> Height(trace[..n]) >= 1
  }

  lemma HeightStep<S>(trace: seq<Event<S>>, n: nat)
    requires n < |trace|
    ensures Height(trace[..n + 1])
            == Height(trace[..n]) + (match trace[n] case Call => 1 case Mutate(_) => 0 case End(_) => -1)
  {
    assert trace[..n + 1][..n] == trace[..n];
  }

  lemma MatchExists<S>(trace: seq<Event<S>>) returns (k: nat)
    requires WellBracketed(trace) && trace != [] && trace[0].Call?
    ensures Matches(trace, k)
  {
    HeightStep(trace, 0);
    assert trace[..|trace|] == trace && trace[..0] == [];
    k := 1;
    while Height(trace[..k + 1]) > 0
      invariant 1 <= k < |trace|
      invariant forall n :: 1 <= n <= k ==> Height(trace[..n]) >= 1
      decreases |trace| - k
    {
      k := k + 1;
    }
    HeightStep(trace, k);
  }

  lemma SliceHeights<S>(trace: seq<Event<S>>, i: nat, n: nat)
    requires i + n <= |trace|
    ensures Height(trace[i..][..n]) == Height(trace[..i + n]) - Height(trace[..i])
  {
    assert trace[..i + n] == trace[..i] + trace[i..][..n];
    HeightAppend(trace[..i], trace[i..][..n]);
  }

  lemma RestIsBracketed<S>(trace: seq<Event<S>>, i: nat)
    requires WellBracketed(trace) && i <= |trace| && Height(trace[..i]) == 0
    ensures WellBracketed(trace[i..])
  {
    var rest := trace[i..];
    forall n | 0 <= n <= |rest|
      ensures Height(rest[..n]) >= 0
    {
      SliceHeights(trace, i, n);
    }
    SliceHeights(trace, i, |rest|);
    assert rest[..|rest|] == rest && trace[..i + |rest|] == trace;
  }

  lemma BodyIsBracketed<S>(trace: seq<Event<S>>, k: nat)
    requires Matches(trace, k)
    ensures WellBracketed(trace[1..k])
  {
    var body := trace[1..k];
    assert trace[..0] == [];
    HeightStep(trace, 0);
    HeightStep(trace, k);
    forall n | 0 <= n <= |body|
      ensures Height(body[..n]) == Height(trace[..n + 1]) - 1
    {
      assert body[..n] == trace[1..][..n];
      SliceHeights(trace, 1, n);
    }
    assert body[..|body|] == body;
  }

  lemma TraceDo<S>(f: S -> S, rest: seq<Action<S>>)
    ensures Trace([Do(f)] + rest) == [Mutate(f)] + Trace(rest)
  {
    assert ([Do(f)] + rest)[1..] == rest;
  }

  lemma TraceFrame<S>(body: seq<Action<S>>, ok: bool, rest: seq<Action<S>>)
    ensures Trace([Frame(body, ok)] + rest) == Enclose(Trace(body), ok) + Trace(rest)
  {
    assert ([Frame(body, ok)] + rest)[1..] == rest;
  }

  lemma SplitAtMatch<S>(trace: seq<Event<S>>, k: nat)
    requires Matches(trace, k)
    ensures trace == Enclose(trace[1..k], trace[k].ok) + trace[k + 1..]
  {
    assert trace == [trace[0]] + trace[1..k] + [trace[k]] + trace[k + 1..];
  }

  /** Every well-bracketed trace is the trace of a call tree. */
  lemma {:induction false} Parse<S>(trace: seq<Event<S>>) returns (actions: seq<Action<S>>)
    requires WellBracketed(trace)
    ensures Trace(actions) == trace
    decreases |trace|
  {
    if trace == [] {
      return [];
    }
    HeightStep(trace, 0);
    assert trace[..0] == [];
    match trace[0]
    case Mutate(f) =>
      RestIsBracketed(trace, 1);
      var rest := Parse(trace[1..]);
      TraceDo(f, rest);
      actions := [Do(f)] + rest;
    case Call =>
      var k := MatchExists(trace);
      BodyIsBracketed(trace, k);
      var body := Parse(trace[1..k]);
      RestIsBracketed(trace, k + 1);
      var rest := Parse(trace[k + 1..]);
      TraceFrame(body, trace[k].ok, rest);
      SplitAtMatch(trace, k);
      actions := [Frame(body, trace[k].ok)] + rest;
    case End(_) =>
      assert false;
  }

  /** For every well-bracketed trace there is a call tree with that trace, and the
      guard ends in the state the tree means, with the stack it started from. */
  lemma {:induction false} WellBracketedMeaning<S>(
      trace: seq<Event<S>>, g: Guarded<S>) returns (actions: seq<Action<S>>)
    requires WellBracketed(trace)
    ensures Trace(actions) == trace
    ensures Run(g, trace) == Guarded(Exec(actions, g.state), g.savepoints)
  {
    actions := Parse(trace);
    GuardMeaning(actions, g);
  }

  // ------------------------------------------------------------ open frames

  /** The call at position p is still open at the end of the trace. */
  ghost predicate IsOpen<S>(trace: seq<Event<S>>, p: nat) {
    p < |trace| && trace[p].Call? && forall n :: p < n <= |trace| ==> Height(trace[p..n]) >= 1
  }

  /** The open frames, outermost first, by position. */
  function OpenCalls<S>(trace: seq<Event<S>>): seq<nat> {
    if trace == [] then []
    else
      var n := |trace| - 1;
      var before := OpenCalls(trace[..n]);
      match trace[n]
      case Call => before + [n]
      case Mutate(_) => before
      case End(_) => if before == [] then [] else before[..|before| - 1]
  }

  /** Every listed position is below the trace's end, and the calls since the
      i-th open frame's entry exceed the ends by the frames open from it on. */
  lemma {:induction false} OpenHeight<S>(trace: seq<Event<S>>, i: nat)
    requires i < |OpenCalls(trace)|
    ensures OpenCalls(trace)[i] < |trace|
    ensures Height(trace[OpenCalls(trace)[i]..]) == |OpenCalls(trace)| - i
  {
    var n := |trace| - 1;
    var before := OpenCalls(trace[..n]);
    if i < |before| {
      OpenHeight(trace[..n], i);
      assert trace[before[i]..][..n - before[i]] == trace[..n][before[i]..];
    } else {
      assert trace[n..][..0] == [];
    }
  }

  lemma IsOpenExtends<S>(trace: seq<Event<S>>, p: nat)
    requires p < |trace| - 1
    ensures IsOpen(trace, p) <==> IsOpen(trace[..|trace| - 1], p) && Height(trace[p..]) >= 1
  {
    var front := trace[..|trace| - 1];
    assert trace[p..|trace|] == trace[p..];
    if IsOpen(trace, p) {
      forall n | p < n <= |front|
        ensures Height(front[p..n]) >= 1
      {
        assert front[p..n] == trace[p..n];
      }
    }
    if IsOpen(front, p) && Height(trace[p..]) >= 1 {
      forall n | p < n <= |trace|
        ensures Height(trace[p..n]) >= 1
      {
        assert n <= |front| ==> front[p..n] == trace[p..n];
      }
    }
  }

  lemma LastIsOpen<S>(trace: seq<Event<S>>)
    requires trace != []
    ensures IsOpen(trace, |trace| - 1) <==> trace[|trace| - 1].Call?
  {
    var n := |trace| - 1;
    assert trace[n..n + 1] == [trace[n]] && [trace[n]][..0] == [];
    if trace[n].Call? {
      forall m | n < m <= |trace|
        ensures Height(trace[n..m]) >= 1
      {
        assert m == n + 1;
      }
    }
  }

  /** A frame of the front is still listed when its height stays positive. */
  lemma OpenStep<S>(trace: seq<Event<S>>, i: nat)
    requires trace != [] && i < |OpenCalls(trace[..|trace| - 1])|
    ensures var p := OpenCalls(trace[..|trace| - 1])[i];
            p < |trace| - 1 && (i < |OpenCalls(trace)| <==> Height(trace[p..]) >= 1)
  {
    var n := |trace| - 1;
    OpenHeight(trace[..n], i);
    var p := OpenCalls(trace[..n])[i];
    assert trace[p..][..n - p] == trace[..n][p..];
  }

  /** The i-th listed call is open, and every open call is listed. */
  lemma {:induction false} OpenCallsAreOpen<S>(trace: seq<Event<S>>)
    ensures forall i :: 0 <= i < |OpenCalls(trace)| ==> IsOpen(trace, OpenCalls(trace)[i])
    ensures forall p :: IsOpen(trace, p) ==> exists i :: 0 <= i < |OpenCalls(trace)| && OpenCalls(trace)[i] == p
  {
    if trace != [] {
      var n := |trace| - 1;
      var before, after := OpenCalls(trace[..n]), OpenCalls(trace);
      OpenCallsAreOpen(trace[..n]);
      LastIsOpen(trace);
      forall i | 0 <= i < |after|
        ensures IsOpen(trace, after[i])
      {
        if i < |before| {
          OpenStep(trace, i);
          IsOpenExtends(trace, before[i]);
        }
      }
      forall p: nat | IsOpen(trace, p)
        ensures exists i :: 0 <= i < |after| && after[i] == p
      {
        if p < n {
          IsOpenExtends(trace, p);
          var i :| 0 <= i < |before| && before[i] == p;
          OpenStep(trace, i);
          assert after[i] == p;
        } else {
          assert after == before + [n] && after[|before|] == p;
        }
      }
    }
  }

  lemma {:induction false} OneSavepointPerOpenCall<S>(initial: S, trace: seq<Event<S>>)
    ensures |Run(Guarded(initial, []), trace).savepoints| == |OpenCalls(trace)|
  {
    if trace != [] {
      OneSavepointPerOpenCall(initial, trace[..|trace| - 1]);
    }
  }

  /** At each point of any trace, bracketed or not, the i-th savepoint is the
      shared state at the entry of the i-th open frame, and there are no others. */
  lemma {:induction false} SavepointsAreEntries<S>(initial: S, trace: seq<Event<S>>, i: nat)
    requires i < |OpenCalls(trace)|
    ensures OpenCalls(trace)[i] < |trace|
    ensures |Run(Guarded(initial, []), trace).savepoints| == |OpenCalls(trace)|
    ensures Run(Guarded(initial, []), trace).savepoints[i]
            == Run(Guarded(initial, []), trace[..OpenCalls(trace)[i]]).state
  {
    var front := trace[..|trace| - 1];
    OneSavepointPerOpenCall(initial, trace);
    OneSavepointPerOpenCall(initial, front);
    OpenHeight(trace, i);
    if i < |OpenCalls(front)| {
      SavepointsAreEntries(initial, front, i);
      assert front[..OpenCalls(front)[i]] == trace[..OpenCalls(front)[i]];
    }
  }
}

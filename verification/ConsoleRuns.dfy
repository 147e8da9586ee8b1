/** Calls of putchar_buffer by many harts, character by character, under the console lock. */
module ConsoleRuns {
  import opened Prelude
  import opened Console

  /** A character on the console, with the buffer that it comes from. */
  datatype Out = Out(buffer: nat, c: char)

  function Tagged(b: nat, s: string): (outs: seq<Out>)
    ensures |outs| == |s|
  {
    if s == "" then [] else Tagged(b, s[..|s| - 1]) + [Out(b, s[|s| - 1])]
  }

  // ---------------------------------------------------------------- calls one after the other

  /** A call on a buffer, or the re-creation of the process that the buffer belongs to. */
  datatype Event = Call(buffer: nat, c: char) | Wrap(buffer: nat)

  datatype Consoled = Consoled(pending: seq<string>, stream: seq<Out>)

  /** One event as if it happened at once. */
  function Apply(s: Consoled, capacity: nat, e: Event): Consoled {
    if e.buffer >= |s.pending| then s
    else match e
      case Wrap(b) => s.(pending := s.pending[b := ""])
      case Call(b, c) =>
        var handled := HandleNew(s.pending[b], capacity, c);
        Consoled(s.pending[b := handled.pending], s.stream + Tagged(b, handled.out))
  }

  function ApplyAll(s: Consoled, capacity: nat, events: seq<Event>): Consoled {
    if events == [] then s
    else Apply(ApplyAll(s, capacity, events[..|events| - 1]), capacity, events[|events| - 1])
  }

  // ---------------------------------------------------------------- calls that interleave

  /** Where a hart is in putchar_buffer. */
  datatype Loc =
    | Idle
    | Waiting(buffer: nat, c: char)
    | Started(buffer: nat, c: char)
    | Flushing(buffer: nat, c: char, i: nat)
    | Flushed(buffer: nat, c: char)
    | Leaving

  datatype State = State(holder: Option<nat>, harts: seq<Loc>, pending: seq<string>, stream: seq<Out>,
    history: seq<Event>)

  datatype Action = Begin(hart: nat, buffer: nat, c: char) | Advance(hart: nat) | Recreate(buffer: nat)

  /** The hart has the lock and has yet to change the buffer. */
  predicate Uses(l: Loc, b: nat) {
    match l
    case Idle => false
    case Leaving => false
    case Waiting(_, _) => false
    case Started(buffer, _) => buffer == b
    case Flushing(buffer, _, _) => buffer == b
    case Flushed(buffer, _) => buffer == b
  }

  /** A hart can take its next step; a buffer is wrapped again only while no call works on it. */
  predicate Enabled(s: State, a: Action) {
    match a
    case Begin(h, b, _) => h < |s.harts| && s.harts[h].Idle? && b < |s.pending|
    case Advance(h) => h < |s.harts| && !s.harts[h].Idle? && (s.harts[h].Waiting? ==> s.holder == None)
    case Recreate(b) => b < |s.pending| && forall h :: 0 <= h < |s.harts| ==> !Uses(s.harts[h], b)
  }

  function Goto(s: State, h: nat, l: Loc): State
    requires h < |s.harts|
  {
    s.(harts := s.harts[h := l])
  }

  function Emit(s: State, b: nat, c: char): State {
    s.(stream := s.stream + [Out(b, c)])
  }

  function SetPending(s: State, b: nat, p: string): State
    requires b < |s.pending|
  {
    s.(pending := s.pending[b := p])
  }

  /** The next step of a hart: at most one character is put out, or one buffer changed. */
  function AdvanceStep(s: State, capacity: nat, h: nat): State
    requires h < |s.harts|
  {
    match s.harts[h]
    case Idle => s
    case Waiting(b, c) => Goto(s, h, Started(b, c)).(holder := Some(h), history := s.history + [Call(b, c)])
    case Started(b, c) =>
      if b >= |s.pending| then s
      else if c == '\n' || |s.pending[b]| == capacity then Goto(s, h, Flushing(b, c, 0))
      else Goto(SetPending(s, b, s.pending[b] + [c]), h, Leaving)
    case Flushing(b, c, i) =>
      if b >= |s.pending| then s
      else if i < |s.pending[b]| then Goto(Emit(s, b, s.pending[b][i]), h, Flushing(b, c, i + 1))
      else Goto(SetPending(s, b, ""), h, Flushed(b, c))
    case Flushed(b, c) =>
      if b >= |s.pending| then s
      else if c == '\n' then Goto(Emit(s, b, c), h, Leaving)
      else Goto(SetPending(s, b, s.pending[b] + [c]), h, Leaving)
    case Leaving => Goto(s, h, Idle).(holder := None)
  }

  function Step(s: State, capacity: nat, a: Action): State
    requires Enabled(s, a)
  {
    match a
    case Begin(h, b, c) => Goto(s, h, Waiting(b, c))
    case Advance(h) => AdvanceStep(s, capacity, h)
    case Recreate(b) => SetPending(s, b, "").(history := s.history + [Wrap(b)])
  }

  function Start(harts: nat, buffers: nat): State {
    State(None, seq(harts, _ => Idle), seq(buffers, _ => ""), [], [])
  }

  ghost predicate IsRun(harts: nat, buffers: nat, capacity: nat, actions: seq<Action>, states: seq<State>) {
    && |states| == |actions| + 1 && states[0] == Start(harts, buffers)
    && forall i :: 0 <= i < |actions| ==>
      Enabled(states[i], actions[i]) && states[i + 1] == Step(states[i], capacity, actions[i])
  }

  // ---------------------------------------------------------------- the interleaved calls are atomic

  /** The outcome of all calls that have taken the lock, one after the other in the order in which they took it. */
  function Replayed(s: State, capacity: nat): Consoled {
    ApplyAll(Consoled(seq(|s.pending|, _ => ""), []), capacity, s.history)
  }

  function NewLine(b: nat, c: char): seq<Out> {
    if c == '\n' then [Out(b, c)] else []
  }

  function After(c: char): string {
    if c == '\n' then "" else [c]
  }

  /** What the hart that holds the lock has left to do. */
  ghost predicate Remaining(s: State, capacity: nat, l: Loc, r: Consoled) {
    match l
    case Idle => false
    case Waiting(_, _) => false
    case Started(b, c) => b < |s.pending| && r == Apply(Consoled(s.pending, s.stream), capacity, Call(b, c))
    case Flushing(b, c, i) =>
      && b < |s.pending| && i <= |s.pending[b]| && (c == '\n' || |s.pending[b]| == capacity)
      && r == Consoled(s.pending[b := After(c)], s.stream + Tagged(b, s.pending[b][i..]) + NewLine(b, c))
    case Flushed(b, c) =>
      && b < |s.pending| && s.pending[b] == ""
      && r == Consoled(s.pending[b := After(c)], s.stream + NewLine(b, c))
    case Leaving => r == Consoled(s.pending, s.stream)
  }

  predicate Outside(l: Loc, buffers: nat) {
    l.Idle? || (l.Waiting? && l.buffer < buffers)
  }

  /** Only the holder of the lock is past the acquisition, and completing its call gives the atomic outcome. */
  ghost predicate Inv(s: State, capacity: nat) {
    && (match s.holder
        case None => Replayed(s, capacity) == Consoled(s.pending, s.stream)
        case Some(h) => h < |s.harts| && Remaining(s, capacity, s.harts[h], Replayed(s, capacity)))
    && forall h :: 0 <= h < |s.harts| && s.holder != Some(h) ==> Outside(s.harts[h], |s.pending|)
  }

  lemma OneMoreEvent(s: Consoled, capacity: nat, events: seq<Event>, e: Event)
    ensures ApplyAll(s, capacity, events + [e]) == Apply(ApplyAll(s, capacity, events), capacity, e)
  {
    assert (events + [e])[..|events|] == events;
  }

  lemma {:induction false} TaggedConcat(b: nat, s: string, t: string)
    ensures Tagged(b, s + t) == Tagged(b, s) + Tagged(b, t)
  {
    if t == "" {
      assert s + t == s;
    } else {
      assert (s + t)[..|s + t| - 1] == s + t[..|t| - 1];
      TaggedConcat(b, s, t[..|t| - 1]);
    }
  }

  lemma TaggedOne(b: nat, c: char)
    ensures Tagged(b, [c]) == [Out(b, c)]
  {
    assert Tagged(b, [c][..0]) == [];
  }

  lemma TaggedFront(b: nat, s: string, i: nat)
    requires i < |s|
    ensures Tagged(b, s[i..]) == [Out(b, s[i])] + Tagged(b, s[i + 1..])
  {
    assert s[i..] == [s[i]] + s[i + 1..];
    TaggedConcat(b, [s[i]], s[i + 1..]);
    TaggedOne(b, s[i]);
  }

  /** A call that takes the lock. */
  lemma TakesLock(s: State, capacity: nat, h: nat)
    requires Inv(s, capacity) && Enabled(s, Advance(h)) && s.harts[h].Waiting?
    ensures Inv(AdvanceStep(s, capacity, h), capacity)
  {
    var b, c := s.harts[h].buffer, s.harts[h].c;
    OneMoreEvent(Consoled(seq(|s.pending|, _ => ""), []), capacity, s.history, Call(b, c));
  }

  /** The first step under the lock. */
  lemma Starts(s: State, capacity: nat, h: nat, r: Consoled)
    requires h < |s.harts| && s.harts[h].Started? && Remaining(s, capacity, s.harts[h], r)
    ensures var t := AdvanceStep(s, capacity, h);
      Remaining(t, capacity, t.harts[h], r) && |t.pending| == |s.pending|
  {
    var b, c := s.harts[h].buffer, s.harts[h].c;
    var p := s.pending[b];
    if c == '\n' || |p| == capacity {
      assert p[0..] == p;
      TaggedConcat(b, p, ['\n']);
      TaggedOne(b, '\n');
      assert s.stream + (Tagged(b, p) + [Out(b, '\n')]) == s.stream + Tagged(b, p) + [Out(b, '\n')];
      assert s.stream + Tagged(b, p) + [] == s.stream + Tagged(b, p);
    } else {
      assert s.stream + Tagged(b, "") == s.stream;
    }
  }

  /** One character of a flush, or its end. */
  lemma Flushes(s: State, capacity: nat, h: nat, r: Consoled)
    requires h < |s.harts| && s.harts[h].Flushing? && Remaining(s, capacity, s.harts[h], r)
    ensures var t := AdvanceStep(s, capacity, h);
      Remaining(t, capacity, t.harts[h], r) && |t.pending| == |s.pending|
  {
    var b, c, i := s.harts[h].buffer, s.harts[h].c, s.harts[h].i;
    var p := s.pending[b];
    if i < |p| {
      TaggedFront(b, p, i);
      assert s.stream + ([Out(b, p[i])] + Tagged(b, p[i + 1..])) == s.stream + [Out(b, p[i])] + Tagged(b, p[i + 1..]);
    } else {
      assert p[i..] == "";
      assert s.stream + Tagged(b, "") == s.stream;
      assert s.pending[b := ""][b := After(c)] == s.pending[b := After(c)];
    }
  }

  /** The new character behind a flush. */
  lemma Finishes(s: State, capacity: nat, h: nat, r: Consoled)
    requires h < |s.harts| && s.harts[h].Flushed? && Remaining(s, capacity, s.harts[h], r)
    ensures var t := AdvanceStep(s, capacity, h);
      Remaining(t, capacity, t.harts[h], r) && |t.pending| == |s.pending|
  {
    var b, c := s.harts[h].buffer, s.harts[h].c;
    assert s.stream + [] == s.stream;
    assert s.pending[b := s.pending[b]] == s.pending;
    assert "" + [c] == [c];
  }

  lemma AdvanceKeepsInv(s: State, capacity: nat, h: nat)
    requires Inv(s, capacity) && Enabled(s, Advance(h))
    ensures Inv(AdvanceStep(s, capacity, h), capacity)
  {
    match s.harts[h]
    case Waiting(_, _) => TakesLock(s, capacity, h);
    case Started(_, _) => Starts(s, capacity, h, Replayed(s, capacity));
    case Flushing(_, _, _) => Flushes(s, capacity, h, Replayed(s, capacity));
    case Flushed(_, _) => Finishes(s, capacity, h, Replayed(s, capacity));
    case Leaving =>
  }

  /** Wrapping a buffer that no call uses does not disturb the call that is under way. */
  lemma RecreateKeepsInv(s: State, capacity: nat, b: nat)
    requires Inv(s, capacity) && Enabled(s, Recreate(b))
    ensures Inv(Step(s, capacity, Recreate(b)), capacity)
  {
    var t := Step(s, capacity, Recreate(b));
    OneMoreEvent(Consoled(seq(|s.pending|, _ => ""), []), capacity, s.history, Wrap(b));
    if s.holder.Some? {
      var l := s.harts[s.holder.value];
      assert !Uses(l, b);
      match l
      case Started(d, c) =>
        var p := HandleNew(s.pending[d], capacity, c).pending;
        assert s.pending[b := ""][d := p] == s.pending[d := p][b := ""];
      case Flushing(d, c, _) => assert s.pending[b := ""][d := After(c)] == s.pending[d := After(c)][b := ""];
      case Flushed(d, c) => assert s.pending[b := ""][d := After(c)] == s.pending[d := After(c)][b := ""];
      case Leaving =>
    }
  }

  lemma StepKeepsInv(s: State, capacity: nat, a: Action)
    requires Inv(s, capacity) && Enabled(s, a)
    ensures Inv(Step(s, capacity, a), capacity)
  {
    match a
    case Begin(_, _, _) =>
    case Advance(h) => AdvanceKeepsInv(s, capacity, h);
    case Recreate(b) => RecreateKeepsInv(s, capacity, b);
  }

  lemma {:induction false} InvAlong(harts: nat, buffers: nat, capacity: nat, actions: seq<Action>, states: seq<State>,
                                    i: nat)
    requires IsRun(harts, buffers, capacity, actions, states) && i < |states|
    ensures Inv(states[i], capacity)
  {
    if i > 0 {
      InvAlong(harts, buffers, capacity, actions, states, i - 1);
      StepKeepsInv(states[i - 1], capacity, actions[i - 1]);
    }
  }

  /**
   In every run of any number of harts, whenever the console lock is free, the console and
   the buffers are as if the calls had happened at once, in the order in which they took the lock.
   */
  lemma CallsAreAtomic(harts: nat, buffers: nat, capacity: nat, actions: seq<Action>, states: seq<State>, i: nat)
    requires IsRun(harts, buffers, capacity, actions, states) && i < |states| && states[i].holder == None
    ensures ApplyAll(Consoled(seq(|states[i].pending|, _ => ""), []), capacity, states[i].history) ==
            Consoled(states[i].pending, states[i].stream)
  {
    InvAlong(harts, buffers, capacity, actions, states, i);
  }

  /** While a call is under way, the console shows a beginning of what it will show in the end. */
  lemma NothingIsTakenBack(harts: nat, buffers: nat, capacity: nat, actions: seq<Action>, states: seq<State>, i: nat)
    requires IsRun(harts, buffers, capacity, actions, states) && i < |states|
    ensures states[i].stream <= Replayed(states[i], capacity).stream
  {
    InvAlong(harts, buffers, capacity, actions, states, i);
    var s := states[i];
    if s.holder.Some? {
      var l := s.harts[s.holder.value];
      match l
      case Started(b, c) =>
      case Flushing(b, c, k) =>
        assert s.stream + Tagged(b, s.pending[b][k..]) + NewLine(b, c) ==
          s.stream + (Tagged(b, s.pending[b][k..]) + NewLine(b, c));
      case Flushed(b, c) =>
      case Leaving =>
    }
  }
}

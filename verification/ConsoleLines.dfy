/** What reaches the console from each buffer, and when a line stays in one piece. */
module ConsoleLines {
  import opened Prelude
  import opened Console
  import opened ConsoleRuns

  /** The characters on the console that come from buffer `b`. */
  function From(b: nat, outs: seq<Out>): string {
    if outs == [] then ""
    else
      var o := outs[|outs| - 1];
      From(b, outs[..|outs| - 1]) + (if o.buffer == b then [o.c] else "")
  }

  /** The characters that the events push to buffer `b`. */
  function PushedTo(b: nat, events: seq<Event>): string {
    if events == [] then ""
    else
      var e := events[|events| - 1];
      PushedTo(b, events[..|events| - 1]) + (if e.Call? && e.buffer == b then [e.c] else "")
  }

  predicate NoWrap(b: nat, events: seq<Event>) {
    Wrap(b) !in events
  }

  lemma {:induction false} FromConcat(b: nat, s: seq<Out>, t: seq<Out>)
    ensures From(b, s + t) == From(b, s) + From(b, t)
  {
    if t == [] {
      assert s + t == s;
    } else {
      assert (s + t)[..|s + t| - 1] == s + t[..|t| - 1];
      FromConcat(b, s, t[..|t| - 1]);
    }
  }

  lemma {:induction false} FromTagged(b: nat, d: nat, s: string)
    ensures From(b, Tagged(d, s)) == if b == d then s else ""
  {
    if s != "" {
      var n := |s| - 1;
      FromTagged(b, d, s[..n]);
      assert Tagged(d, s)[..n] == Tagged(d, s[..n]);
      assert s[..n] + [s[n]] == s;
    }
  }

  lemma ApplyConserves(s: Consoled, capacity: nat, e: Event, b: nat)
    requires b < |s.pending| && e != Wrap(b)
    ensures var t := Apply(s, capacity, e);
      && |t.pending| == |s.pending|
      && From(b, t.stream) + t.pending[b] ==
         From(b, s.stream) + s.pending[b] + (if e.Call? && e.buffer == b then [e.c] else "")
  {
    if e.Call? && e.buffer < |s.pending| {
      var handled := HandleNew(s.pending[e.buffer], capacity, e.c);
      FromConcat(b, s.stream, Tagged(e.buffer, handled.out));
      FromTagged(b, e.buffer, handled.out);
      HandledConserves(From(b, s.stream), s.pending[e.buffer], capacity, e.c);
    }
  }

  /** What a call puts out and what it leaves are what was there and the new character. */
  lemma HandledConserves(before: string, pending: string, capacity: nat, c: char)
    ensures var handled := HandleNew(pending, capacity, c);
      before + handled.out + handled.pending == before + pending + [c]
  {
  }

  lemma {:induction false} SameBuffers(s: Consoled, capacity: nat, events: seq<Event>)
    ensures |ApplyAll(s, capacity, events).pending| == |s.pending|
  {
    if events != [] {
      SameBuffers(s, capacity, events[..|events| - 1]);
    }
  }

  /**
   Until its process is created anew, no character pushed to a buffer is lost, repeated or
   overtaken: those on the console followed by those still pending are those pushed, in order.
   */
  lemma {:induction false} NothingIsLost(s: Consoled, capacity: nat, events: seq<Event>, b: nat)
    requires b < |s.pending| && NoWrap(b, events)
    ensures var t := ApplyAll(s, capacity, events);
      && |t.pending| == |s.pending|
      && From(b, t.stream) + t.pending[b] == From(b, s.stream) + s.pending[b] + PushedTo(b, events)
  {
    SameBuffers(s, capacity, events);
    if events == [] {
    } else {
      var before, e := events[..|events| - 1], events[|events| - 1];
      SameBuffers(s, capacity, before);
      NothingIsLost(s, capacity, before, b);
      ApplyConserves(ApplyAll(s, capacity, before), capacity, e, b);
      assert From(b, s.stream) + s.pending[b] + PushedTo(b, before) + (if e.Call? && e.buffer == b then [e.c] else "")
        == From(b, s.stream) + s.pending[b] + PushedTo(b, events);
    }
  }

  /** The same in every run of any number of harts, whenever the console lock is free. */
  lemma NothingIsLostInRuns(harts: nat, buffers: nat, capacity: nat, actions: seq<Action>, states: seq<State>,
                            i: nat, b: nat)
    requires IsRun(harts, buffers, capacity, actions, states) && i < |states| && states[i].holder == None
    requires b < |states[i].pending| && NoWrap(b, states[i].history)
    ensures From(b, states[i].stream) + states[i].pending[b] == PushedTo(b, states[i].history)
  {
    var start := Consoled(seq(|states[i].pending|, _ => ""), []);
    CallsAreAtomic(harts, buffers, capacity, actions, states, i);
    NothingIsLost(start, capacity, states[i].history, b);
    assert From(b, start.stream) + start.pending[b] + PushedTo(b, states[i].history) == PushedTo(b, states[i].history);
  }

  // ---------------------------------------------------------------- lines

  lemma {:induction false} PendingFits(s: Consoled, capacity: nat, events: seq<Event>, b: nat)
    requires capacity > 0 && b < |s.pending| && |s.pending[b]| <= capacity
    ensures var t := ApplyAll(s, capacity, events);
      |t.pending| == |s.pending| && |t.pending[b]| <= capacity
  {
    if events != [] {
      PendingFits(s, capacity, events[..|events| - 1], b);
    }
  }

  /** As long as it fits, a line without its newline stays in the buffer. */
  lemma {:induction false} LineIsPending(s: Consoled, capacity: nat, events: seq<Event>, b: nat)
    requires b < |s.pending| && s.pending[b] == "" && NoWrap(b, events)
    requires '\n' !in PushedTo(b, events) && |PushedTo(b, events)| <= capacity
    ensures |ApplyAll(s, capacity, events).pending| == |s.pending|
    ensures ApplyAll(s, capacity, events).pending[b] == PushedTo(b, events)
  {
    SameBuffers(s, capacity, events);
    if events != [] {
      var before, e := events[..|events| - 1], events[|events| - 1];
      LineIsPending(s, capacity, before, b);
      if e.Call? && e.buffer == b {
        assert PushedTo(b, events) == PushedTo(b, before) + [e.c];
        assert PushedTo(b, events)[|PushedTo(b, before)|] == e.c;
      }
    }
  }

  /**
   A line is put out in one piece by its newline, whatever calls on other buffers come in
   between, if and only if it is not longer than the buffer.
   */
  lemma LineIsWholeExactlyIfItFits(s: Consoled, capacity: nat, events: seq<Event>, b: nat)
    requires capacity > 0 && b < |s.pending| && s.pending[b] == "" && NoWrap(b, events)
    requires '\n' !in PushedTo(b, events)
    ensures ApplyAll(s, capacity, events + [Call(b, '\n')]).stream ==
            ApplyAll(s, capacity, events).stream + Tagged(b, PushedTo(b, events) + ['\n'])
      <==> |PushedTo(b, events)| <= capacity
  {
    var line := PushedTo(b, events);
    var t := ApplyAll(s, capacity, events);
    OneMoreEvent(s, capacity, events, Call(b, '\n'));
    PendingFits(s, capacity, events, b);
    if |line| <= capacity {
      LineIsPending(s, capacity, events, b);
    } else {
      assert |t.stream + Tagged(b, t.pending[b] + ['\n'])| < |t.stream + Tagged(b, line + ['\n'])|;
    }
  }

  lemma {:induction false} ApplyAllConcat(s: Consoled, capacity: nat, x: seq<Event>, y: seq<Event>)
    ensures ApplyAll(s, capacity, x + y) == ApplyAll(ApplyAll(s, capacity, x), capacity, y)
    ensures ApplyAll(s, capacity, x).stream <= ApplyAll(s, capacity, x + y).stream
  {
    if y == [] {
      assert x + y == x;
    } else {
      assert (x + y)[..|x + y| - 1] == x + y[..|y| - 1];
      ApplyAllConcat(s, capacity, x, y[..|y| - 1]);
    }
  }

  lemma LineInStream(start: Consoled, capacity: nat, b: nat, x: seq<Event>, line: seq<Event>, y: seq<Event>)
    returns (at: nat)
    requires capacity > 0 && NoWrap(b, line) && '\n' !in PushedTo(b, line) && |PushedTo(b, line)| <= capacity
    requires var s := ApplyAll(start, capacity, x);
      b < |s.pending| && s.pending[b] == ""
    ensures var text := PushedTo(b, line) + ['\n'];
      var stream := ApplyAll(start, capacity, x + (line + [Call(b, '\n')]) + y).stream;
      at + |text| <= |stream| && stream[at..at + |text|] == Tagged(b, text)
  {
    var s := ApplyAll(start, capacity, x);
    var first := line + [Call(b, '\n')];
    LineIsWholeExactlyIfItFits(s, capacity, line, b);
    var before, piece := ApplyAll(s, capacity, line).stream, Tagged(b, PushedTo(b, line) + ['\n']);
    StreamGoesOn(start, capacity, x, first, y);
    PieceOfPrefix(ApplyAll(s, capacity, first).stream, ApplyAll(start, capacity, x + first + y).stream, before, piece);
    at := |before|;
  }

  lemma StreamGoesOn(start: Consoled, capacity: nat, x: seq<Event>, first: seq<Event>, y: seq<Event>)
    ensures ApplyAll(ApplyAll(start, capacity, x), capacity, first).stream <= ApplyAll(start, capacity,
      x + first + y).stream
  {
    ApplyAllConcat(start, capacity, x, first);
    ApplyAllConcat(start, capacity, x + first, y);
  }

  lemma PieceOfPrefix(whole: seq<Out>, stream: seq<Out>, before: seq<Out>, piece: seq<Out>)
    requires whole <= stream && whole == before + piece
    ensures |before| + |piece| <= |stream| && stream[|before|..|before| + |piece|] == piece
  {
    assert stream[..|whole|] == whole;
  }

  /** The last thing that happened to buffer `b` was a newline, or that it was wrapped anew, or nothing. */
  predicate AtLineStart(b: nat, events: seq<Event>) {
    events == [] ||
      var e := events[|events| - 1];
      if e.buffer == b then e.Wrap? || e.c == '\n' else AtLineStart(b, events[..|events| - 1])
  }

  /** A buffer is empty exactly where a line starts. */
  lemma {:induction false} EmptyExactlyAtLineStart(s: Consoled, capacity: nat, events: seq<Event>, b: nat)
    requires b < |s.pending| && s.pending[b] == ""
    ensures |ApplyAll(s, capacity, events).pending| == |s.pending|
    ensures ApplyAll(s, capacity, events).pending[b] == "" <==> AtLineStart(b, events)
  {
    SameBuffers(s, capacity, events);
    if events != [] {
      SameBuffers(s, capacity, events[..|events| - 1]);
      EmptyExactlyAtLineStart(s, capacity, events[..|events| - 1], b);
    }
  }

  /**
   In every run, a line of at most `capacity` characters (`x` being the calls before it)
   appears on the console in one piece, at `at`, once its newline has been handled.
   */
  lemma LineAppearsInOnePiece(harts: nat, buffers: nat, capacity: nat, actions: seq<Action>, states: seq<State>,
                              i: nat, b: nat, x: seq<Event>, line: seq<Event>, y: seq<Event>)
    returns (at: nat)
    requires capacity > 0 && IsRun(harts, buffers, capacity, actions, states) && i < |states| &&
      states[i].holder == None
    requires states[i].history == x + (line + [Call(b, '\n')]) + y && b < |states[i].pending|
    requires AtLineStart(b, x)
    requires NoWrap(b, line) && '\n' !in PushedTo(b, line) && |PushedTo(b, line)| <= capacity
    ensures var text := PushedTo(b, line) + ['\n'];
      at + |text| <= |states[i].stream| && states[i].stream[at..at + |text|] == Tagged(b, text)
  {
    CallsAreAtomic(harts, buffers, capacity, actions, states, i);
    var start := Consoled(seq(|states[i].pending|, _ => ""), []);
    EmptyExactlyAtLineStart(start, capacity, x, b);
    at := LineInStream(start, capacity, b, x, line, y);
  }
}

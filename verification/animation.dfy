/** The sprite-sheet animation engine: the per-tick frame stepper, the
    post-swap index correction and the generic "finished -> next state"
    rebinding. Bevy's frame timer is reduced to whether it fired this tick. */
module Animation {
  import opened Wrappers
  import opened Entity


  /** A clip of the sheet: frames `start..end` (end exclusive), the period of
      its repeating frame timer in seconds, and whether playback loops. */
  datatype Clip = Clip(start: nat, end: nat, frameSeconds: real, repeat: bool)
  {
    /** Every clip of the game has a non-empty range. */
    predicate Valid() {
      start < end
    }

    /** The frames the stepper cycles through. */
    predicate InRange(index: nat) {
      start <= index < end
    }

    /** The band the post-swap correction tolerates; it includes `end`. */
    predicate InBand(index: nat) {
      start <= index <= end
    }
  }

  datatype AnimationEvent = Finished(entity: EntityId)

  /** `indices.end - 1` on a `usize` whose `end` is 0. */
  datatype Fault = IndexUnderflow

  /** The displayed index after one tick, and whether `Finished` was sent. */
  datatype Frame = Frame(index: nat, finished: bool)

  /** One tick of `sprite_sheet_animation` for one sprite. */
  function Advance(clip: Clip, index: nat, fired: bool): (r: Result<Frame, Fault>)
    ensures !fired ==> r == Success(Frame(index, false))
    ensures fired && index + 1 < clip.end ==> r == Success(Frame(index + 1, false))
    ensures fired && index + 1 >= clip.end && clip.repeat ==> r == Success(Frame(clip.start, false))
    ensures fired && index + 1 >= clip.end && !clip.repeat && clip.end > 0 ==>
              r == Success(Frame(clip.end - 1, true))
    ensures r.Failure? <==> fired && !clip.repeat && clip.end == 0
    ensures clip.repeat ==> r.Success? && !r.value.finished
  {
    if !fired then Success(Frame(index, false))
    else if index + 1 < clip.end then Success(Frame(index + 1, false))
    else if clip.repeat then Success(Frame(clip.start, false))
    else if clip.end == 0 then Failure(IndexUnderflow)
    else Success(Frame(clip.end - 1, true))
  }

  /** The range invariant: a tick keeps an in-range index in range, and a
      firing tick brings any index of the correction band into range. */
  lemma AdvanceKeepsRange(clip: Clip, index: nat, fired: bool)
    requires clip.Valid()
    requires clip.InRange(index) || (fired && clip.InBand(index))
    ensures Advance(clip, index, fired).Success?
    ensures clip.InRange(Advance(clip, index, fired).value.index)
  {
  }

  /** The index of a valid clip after `n` consecutive firings. */
  function Play(clip: Clip, index: nat, n: nat): nat
    requires clip.Valid()
    decreases n
  {
    if n == 0 then index else Play(clip, Advance(clip, index, true).value.index, n - 1)
  }

  lemma MulAtLeast(a: int, m: int)
    requires a >= 1 && m > 0
    ensures a * m >= m
    decreases a
  {
    if a > 1 {
      MulAtLeast(a - 1, m);
      assert a * m == (a - 1) * m + m;
    }
  }

  /** Euclidean remainders are unique. */
  lemma ModUnique(x: int, m: int, q: int, r: int)
    requires m > 0 && 0 <= r < m && x == q * m + r
    ensures x % m == r
  {
    var q0, r0 := x / m, x % m;
    assert x == q0 * m + r0;
    var d := q - q0;
    assert d * m == q * m - q0 * m;
    assert d * m == r0 - r;
    if d >= 1 {
      MulAtLeast(d, m);
    } else if d <= -1 {
      MulAtLeast(-d, m);
    }
  }

  lemma ModShift(a: nat, m: nat)
    requires m > 0
    ensures (a + m) % m == a % m
  {
    ModUnique(a + m, m, a / m + 1, a % m);
  }

  /** A looping clip entered at frame `start + k` shows frame
      `start + (k + n) mod length` after `n` firings. */
  lemma {:induction false} LoopFrom(clip: Clip, k: nat, n: nat)
    requires clip.Valid() && clip.repeat
    requires k < clip.end - clip.start
    ensures Play(clip, clip.start + k, n) == clip.start + (k + n) % (clip.end - clip.start)
    decreases n
  {
    var len := clip.end - clip.start;
    if n == 0 {
      ModUnique(k, len, 0, k);
    } else if k + 1 < len {
      assert Play(clip, clip.start + k, n) == Play(clip, clip.start + (k + 1), n - 1);
      LoopFrom(clip, k + 1, n - 1);
      assert k + n == (k + 1) + (n - 1);
    } else {
      assert Play(clip, clip.start + k, n) == Play(clip, clip.start + 0, n - 1);
      LoopFrom(clip, 0, n - 1);
      ModShift(n - 1, len);
      assert k + n == (n - 1) + len;
    }
  }

  /** Looping closed form: from `start`, `n` firings show `start + n mod length`. */
  lemma LoopClosedForm(clip: Clip, n: nat)
    requires clip.Valid() && clip.repeat
    ensures Play(clip, clip.start, n) == clip.start + n % (clip.end - clip.start)
  {
    LoopFrom(clip, 0, n);
  }

  /** A non-looping clip climbs one frame per firing and then stays on its
      last frame. */
  lemma {:induction false} OnceClosedForm(clip: Clip, index: nat, n: nat)
    requires clip.Valid() && !clip.repeat
    requires clip.InRange(index)
    ensures Play(clip, index, n) == if index + n < clip.end then index + n else clip.end - 1
    decreases n
  {
    if n > 0 {
      OnceClosedForm(clip, Advance(clip, index, true).value.index, n - 1);
    }
  }

  /** While a non-looping clip is clamped on its last frame every firing sends
      `Finished` again: the frame timer repeats, so the event is not one-shot. */
  lemma ClampedReemits(clip: Clip)
    requires clip.Valid() && !clip.repeat
    ensures Advance(clip, clip.end - 1, true) == Success(Frame(clip.end - 1, true))
  {
  }

  /** `set_initial_sprite_index`: after a clip swap, an index outside the
      inclusive band `start..=end` is snapped to `start`. */
  function Resnap(clip: Clip, index: nat): (r: nat)
    ensures clip.InBand(index) ==> r == index
    ensures !clip.InBand(index) ==> r == clip.start
    ensures clip.start <= clip.end ==> clip.InBand(r)
  {
    if index < clip.start || index > clip.end then clip.start else index
  }

  lemma ResnapIdempotent(clip: Clip, index: nat)
    ensures Resnap(clip, Resnap(clip, index)) == Resnap(clip, index)
  {
  }

  /** An animated sprite as `sprite_sheet_animation` sees it. */
  datatype Sprite = Sprite(entity: EntityId, clip: Clip, index: nat)

  /** The sprites after a tick and the events sent, in query order. */
  datatype Tick = Tick(sprites: seq<Sprite>, events: seq<AnimationEvent>)

  predicate Emits(s: Sprite, fired: bool) {
    var a := Advance(s.clip, s.index, fired);
    a.Success? && a.value.finished
  }

  /** `sprite_sheet_animation` over every animated sprite; `fired[i]` says
      whether sprite `i`'s frame timer finished a period this tick. */
  function AnimateAll(xs: seq<Sprite>, fired: seq<bool>): (r: Result<Tick, Fault>)
    requires |fired| == |xs|
    ensures r.Success? <==> forall i :: 0 <= i < |xs| ==> Advance(xs[i].clip, xs[i].index, fired[i]).Success?
    ensures r.Success? ==> |r.value.sprites| == |xs|
    ensures r.Success? ==> forall i :: 0 <= i < |xs| ==>
              var a := Advance(xs[i].clip, xs[i].index, fired[i]);
              a.Success? && r.value.sprites[i] == xs[i].(index := a.value.index)
    ensures r.Success? ==> forall ev :: ev in r.value.events <==>
              exists i :: 0 <= i < |xs| && Emits(xs[i], fired[i]) && ev == Finished(xs[i].entity)
    ensures r.Success? ==> forall e :: Count(r.value.events, e) == Emitting(xs, fired, e)
    decreases |xs|
  {
    if |xs| == 0 then Success(Tick([], []))
    else
      match Advance(xs[0].clip, xs[0].index, fired[0])
      case Failure(f) => Failure(f)
      case Success(frame) =>
        match AnimateAll(xs[1..], fired[1..])
        case Failure(f) => Failure(f)
        case Success(rest) =>
          var head := if frame.finished then [Finished(xs[0].entity)] else [];
          CountCons(Finished(xs[0].entity), rest.events);
          assert head + rest.events == if frame.finished then [Finished(xs[0].entity)] + rest.events else rest.events;
          Success(Tick([xs[0].(index := frame.index)] + rest.sprites, head + rest.events))
  }

  /** How many sprites of entity `e` send `Finished` on this tick. */
  function Emitting(xs: seq<Sprite>, fired: seq<bool>, e: EntityId): nat
    requires |fired| == |xs|
    decreases |xs|
  {
    if |xs| == 0 then 0
    else (if xs[0].entity == e && Emits(xs[0], fired[0]) then 1 else 0) + Emitting(xs[1..], fired[1..], e)
  }

  /** The components `animation_finisher` needs: the semantic state, the
      installed clip and the displayed index. */
  datatype Bound<S> = Bound(state: S, clip: Clip, index: nat)

  /** Entities that carry all three components; the rest are absent. */
  type World<S> = map<EntityId, Bound<S>>

  /** `next().unwrap()` on a state without a successor. */
  datatype FinishFault = NoSuccessor(entity: EntityId)

  /** One `Finished(e)` event: advance `e`'s state, install its clip and show
      the clip's first frame; an entity lacking the components is skipped. */
  function FinishOne<S>(w: World<S>, e: EntityId, next: S -> Option<S>, toClip: S -> Clip)
    : (r: Result<World<S>, FinishFault>)
    ensures e !in w ==> r == Success(w)
    ensures r.Failure? <==> e in w && next(w[e].state).None?
    ensures r.Success? ==> r.value.Keys == w.Keys
    ensures r.Success? ==> forall o :: o in w && o != e ==> r.value[o] == w[o]
    ensures r.Success? && e in w ==>
              Some(r.value[e].state) == next(w[e].state) &&
              r.value[e].clip == toClip(r.value[e].state) &&
              r.value[e].index == r.value[e].clip.start
  {
    if e !in w then Success(w)
    else
      match next(w[e].state)
      case None => Failure(NoSuccessor(e))
      case Some(s) =>
        var clip := toClip(s);
        Success(w[e := Bound(s, clip, clip.start)])
  }

  /** `animation_finisher`: drain the queued events in arrival order. */
  function Finish<S>(w: World<S>, events: seq<AnimationEvent>, next: S -> Option<S>, toClip: S -> Clip)
    : (r: Result<World<S>, FinishFault>)
    ensures r.Success? ==> r.value.Keys == w.Keys
    decreases |events|
  {
    if |events| == 0 then Success(w)
    else
      match FinishOne(w, events[0].entity, next, toClip)
      case Failure(f) => Failure(f)
      case Success(w1) => Finish(w1, events[1..], next, toClip)
  }

  /** How many queued events name entity `e`. */
  function Count(events: seq<AnimationEvent>, e: EntityId): nat
    decreases |events|
  {
    if |events| == 0 then 0
    else (if events[0].entity == e then 1 else 0) + Count(events[1..], e)
  }

  lemma CountCons(ev: AnimationEvent, rest: seq<AnimationEvent>)
    ensures forall e :: Count([ev] + rest, e) == (if ev.entity == e then 1 else 0) + Count(rest, e)
  {
    assert ([ev] + rest)[1..] == rest;
  }

  /** `k` applications of the successor function, failing where it fails. */
  function NextN<S>(next: S -> Option<S>, s: S, k: nat): Option<S>
    decreases k
  {
    if k == 0 then Some(s)
    else
      match next(s)
      case None => None
      case Some(s1) => NextN(next, s1, k - 1)
  }

  /** Closed form of the finisher: an entity named by `k` events ends in its
      `k`-th successor state, with that state's clip installed and its first
      frame shown; an entity named by none is untouched. */
  lemma {:induction false} FinishClosedForm<S>(w: World<S>, events: seq<AnimationEvent>,
                                                next: S -> Option<S>, toClip: S -> Clip, e: EntityId)
    requires Finish(w, events, next, toClip).Success?
    requires e in w
    ensures var w' := Finish(w, events, next, toClip).value;
            e in w' &&
            NextN(next, w[e].state, Count(events, e)) == Some(w'[e].state) &&
            (Count(events, e) == 0 ==> w'[e] == w[e]) &&
            (Count(events, e) > 0 ==> w'[e].clip == toClip(w'[e].state) && w'[e].index == w'[e].clip.start)
    decreases |events|
  {
    if |events| > 0 {
      var w1 := FinishOne(w, events[0].entity, next, toClip).value;
      FinishClosedForm(w1, events[1..], next, toClip, e);
    }
  }

  /** The converse: when every entity's successors exist as often as events
      name it, draining the queue does not fault. */
  lemma {:induction false} FinishSucceeds<S>(w: World<S>, events: seq<AnimationEvent>,
                                              next: S -> Option<S>, toClip: S -> Clip)
    requires forall e :: e in w ==> NextN(next, w[e].state, Count(events, e)).Some?
    ensures Finish(w, events, next, toClip).Success?
    decreases |events|
  {
    if |events| > 0 {
      var e0 := events[0].entity;
      var r1 := FinishOne(w, e0, next, toClip);
      if e0 in w {
        assert Count(events, e0) > 0;
        assert NextN(next, w[e0].state, Count(events, e0)).Some?;
        assert r1.Success?;
      }
      var w1 := r1.value;
      forall e | e in w1
        ensures NextN(next, w1[e].state, Count(events[1..], e)).Some?
      {
        assert NextN(next, w[e].state, Count(events, e)).Some?;
      }
      FinishSucceeds(w1, events[1..], next, toClip);
    }
  }

  /** Events are processed in order: draining `a + b` is draining `a`, then `b`. */
  lemma {:induction false} FinishConcat<S>(w: World<S>, a: seq<AnimationEvent>, b: seq<AnimationEvent>,
                                            next: S -> Option<S>, toClip: S -> Clip)
    ensures Finish(w, a + b, next, toClip) ==
            match Finish(w, a, next, toClip)
            case Failure(f) => Failure(f)
            case Success(w1) => Finish(w1, b, next, toClip)
    decreases |a|
  {
    if |a| == 0 {
      assert a + b == b;
    } else {
      assert (a + b)[0] == a[0];
      assert (a + b)[1..] == a[1..] + b;
      match FinishOne(w, a[0].entity, next, toClip)
      case Failure(f) =>
      case Success(w1) =>
        FinishConcat(w1, a[1..], b, next, toClip);
    }
  }
}

/**
 * The timers of the content script (extension/content.js): every DOM mutation
 * re-injects the cached tags and replaces the one pending debounce timer by a
 * fresh one due `SETTLE` milliseconds later, and one timer set when the script
 * loads runs the feed analysis `INITIAL_DELAY` milliseconds after load.
 *
 * Time is an integer clock in milliseconds. A run of the browser is a trace of
 * events in time order: a mutation at time `t`, or the clock reaching `t`. When
 * the clock reaches `t`, every timer due at or before `t` runs, earliest first.
 */
module Debounce {
  import opened Wrappers
  import opened Content

  const SETTLE: int := 2000
  const INITIAL_DELAY: int := 500

  /** The clock and the two timers: `debounceTimer` and the initial `setTimeout`. */
  datatype Timers = Timers(now: int, debounce: Option<int>, initial: Option<int>)

  /** Which timer ran `analyzeFeed`. */
  datatype Timer = Initial | Settled

  /** A timer that ran, with the time it was due. */
  datatype Fire = Fire(timer: Timer, at: int)

  datatype Event = Mutation(t: int) | Tick(t: int)

  /** The timers right after the script loads at time `t0`. */
  function Loaded(t0: int): (r: Timers)
    ensures r.now == t0 && r.debounce.None? && r.initial == Some(t0 + INITIAL_DELAY)
  {
    Timers(t0, None, Some(t0 + INITIAL_DELAY))
  }

  predicate Due(o: Option<int>, t: int) {
    o.Some? && o.value <= t
  }

  /** Every pending timer lies in the future. */
  predicate Future(s: Timers) {
    (s.debounce.Some? ==> s.debounce.value > s.now) && (s.initial.Some? ==> s.initial.value > s.now)
  }

  /** The timers that run when the clock reaches `t`, in the order they run. */
  function Fired(s: Timers, t: int): (r: seq<Fire>)
    ensures |r| == (if Due(s.initial, t) then 1 else 0) + (if Due(s.debounce, t) then 1 else 0)
    ensures Due(s.initial, t) ==> Fire(Initial, s.initial.value) in r
    ensures Due(s.debounce, t) ==> Fire(Settled, s.debounce.value) in r
    ensures forall i :: 0 <= i < |r| ==>
      || (r[i].timer == Initial && s.initial == Some(r[i].at) && r[i].at <= t)
      || (r[i].timer == Settled && s.debounce == Some(r[i].at) && r[i].at <= t)
    ensures |r| == 2 ==> r[0].at <= r[1].at
  {
    var a := if Due(s.initial, t) then [Fire(Initial, s.initial.value)] else [];
    var b := if Due(s.debounce, t) then [Fire(Settled, s.debounce.value)] else [];
    if a != [] && b != [] && b[0].at < a[0].at then b + a else a + b
  }

  /** The clock reaches `t`: the timers that ran are gone, the others stay. */
  function Advance(s: Timers, t: int): (r: Timers)
    requires s.now <= t
    ensures r.now == t
    ensures Future(r)
    ensures Due(s.debounce, t) ==> r.debounce.None?
    ensures Due(s.initial, t) ==> r.initial.None?
    ensures !Due(s.debounce, t) ==> r.debounce == s.debounce
    ensures !Due(s.initial, t) ==> r.initial == s.initial
  {
    Timers(t, if Due(s.debounce, t) then None else s.debounce, if Due(s.initial, t) then None else s.initial)
  }

  /** A mutation at the current time: `clearTimeout` and a new timer `SETTLE` later. */
  function Mutate(s: Timers): (r: Timers)
    ensures Future(s) ==> Future(r)
    ensures r.debounce == Some(s.now + SETTLE) && r.now == s.now && r.initial == s.initial
  {
    s.(debounce := Some(s.now + SETTLE))
  }

  /** One event: the clock reaches its time, then a mutation is handled. */
  function Step(s: Timers, e: Event): (r: (Timers, seq<Fire>))
    requires s.now <= e.t
  {
    var a := Advance(s, e.t);
    (if e.Mutation? then Mutate(a) else a, Fired(s, e.t))
  }

  /** Event times never go backwards and do not precede `t0`. */
  predicate InOrder(t0: int, evs: seq<Event>) {
    (forall i :: 0 <= i < |evs| ==> t0 <= evs[i].t) &&
    (forall i, j :: 0 <= i < j < |evs| ==> evs[i].t <= evs[j].t)
  }

  /** The timers after a trace, and every timer run in the order they ran. */
  function Replay(s: Timers, evs: seq<Event>): (r: (Timers, seq<Fire>))
    requires InOrder(s.now, evs)
    ensures r.0.now == LastTime(s.now, evs)
    decreases |evs|
  {
    if evs == [] then (s, [])
    else
      var n := |evs| - 1;
      InOrderPrefix(s.now, evs, n);
      var p := Replay(s, evs[..n]);
      var q := Step(p.0, evs[n]);
      (q.0, p.1 + q.1)
  }

  /** The time of the last mutation of a trace, if any. */
  function LastMutation(evs: seq<Event>): (r: Option<int>)
    decreases |evs|
  {
    if evs == [] then None
    else if evs[|evs| - 1].Mutation? then Some(evs[|evs| - 1].t)
    else LastMutation(evs[..|evs| - 1])
  }

  /** How many times the initial timer ran. */
  function InitialRuns(fs: seq<Fire>): (r: nat)
    decreases |fs|
  {
    if fs == [] then 0 else InitialRuns(fs[..|fs| - 1]) + (if fs[|fs| - 1].timer == Initial then 1 else 0)
  }

  /** The debounce timer is pending exactly while the last mutation is less than `SETTLE` ago. */
  predicate DebounceTracks(s: Timers, last: Option<int>) {
    match last
    case None => s.debounce.None?
    case Some(m) => s.debounce == (if s.now < m + SETTLE then Some(m + SETTLE) else None)
  }

  /** The initial timer is pending until its time and has run once after it. */
  predicate InitialTracks(t0: int, s: Timers, fs: seq<Fire>) {
    && s.initial == (if s.now < t0 + INITIAL_DELAY then Some(t0 + INITIAL_DELAY) else None)
    && InitialRuns(fs) == (if s.now < t0 + INITIAL_DELAY then 0 else 1)
    && (forall i :: 0 <= i < |fs| && fs[i].timer == Initial ==> fs[i].at == t0 + INITIAL_DELAY)
  }

  lemma InitialRunsAppend(a: seq<Fire>, b: seq<Fire>)
    ensures InitialRuns(a + b) == InitialRuns(a) + InitialRuns(b)
    decreases |b|
  {
    if b != [] {
      var n := |b| - 1;
      assert (a + b)[..|a + b| - 1] == a + b[..n];
      InitialRunsAppend(a, b[..n]);
    } else {
      assert a + b == a;
    }
  }

  /** The initial timer runs once in a step exactly when it is due. */
  lemma FiredInitial(s: Timers, t: int)
    ensures InitialRuns(Fired(s, t)) == if Due(s.initial, t) then 1 else 0
  {
    var fs := Fired(s, t);
    if |fs| == 2 {
      assert fs[..1][..0] == [] && fs[0].timer != fs[1].timer;
      assert InitialRuns(fs) == InitialRuns(fs[..1]) + (if fs[1].timer == Initial then 1 else 0);
      assert InitialRuns(fs[..1]) == if fs[0].timer == Initial then 1 else 0;
    } else if |fs| == 1 {
      assert fs[..0] == [];
    }
  }

  /** One event keeps the debounce timer in step with the last mutation. */
  lemma StepDebounce(s: Timers, last: Option<int>, e: Event)
    requires s.now <= e.t && DebounceTracks(s, last)
    ensures DebounceTracks(Step(s, e).0, if e.Mutation? then Some(e.t) else last)
  {
  }

  /** One event keeps the initial timer in step with the clock. */
  lemma StepInitial(t0: int, s: Timers, fs: seq<Fire>, e: Event)
    requires s.now <= e.t && InitialTracks(t0, s, fs)
    ensures InitialTracks(t0, Step(s, e).0, fs + Step(s, e).1)
  {
    var ran := Fired(s, e.t);
    var a := Step(s, e).0;
    assert a.now == e.t && a.initial == Advance(s, e.t).initial;
    FiredInitial(s, e.t);
    InitialRunsAppend(fs, ran);
    FiresAppendInitial(t0, fs, ran, s, e.t);
  }

  /** The initial runs of a step happen at the initial timer's time. */
  lemma FiresAppendInitial(t0: int, fs: seq<Fire>, ran: seq<Fire>, s: Timers, t: int)
    requires ran == Fired(s, t)
    requires s.initial.Some? ==> s.initial.value == t0 + INITIAL_DELAY
    requires forall i :: 0 <= i < |fs| && fs[i].timer == Initial ==> fs[i].at == t0 + INITIAL_DELAY
    ensures forall i :: 0 <= i < |fs + ran| && (fs + ran)[i].timer == Initial ==> (fs + ran)[i].at == t0 + INITIAL_DELAY
  {
    forall i | 0 <= i < |fs + ran| && (fs + ran)[i].timer == Initial
      ensures (fs + ran)[i].at == t0 + INITIAL_DELAY
    {
      if i >= |fs| {
        assert (fs + ran)[i] == ran[i - |fs|];
      }
    }
  }

  /** The time of the last event, or `t0` for the empty trace. */
  function LastTime(t0: int, evs: seq<Event>): (r: int) {
    if evs == [] then t0 else evs[|evs| - 1].t
  }

  lemma InOrderPrefix(t0: int, evs: seq<Event>, n: nat)
    requires InOrder(t0, evs) && n <= |evs|
    ensures InOrder(t0, evs[..n]) && LastTime(t0, evs[..n]) <= LastTime(t0, evs)
  {
    assert forall i :: 0 <= i < n ==> evs[..n][i] == evs[i];
  }

  /** What any trace from the load leaves behind: both timers follow the clock and the mutations. */
  lemma {:induction false} ReplayTracks(t0: int, evs: seq<Event>)
    requires InOrder(t0, evs)
    ensures DebounceTracks(Replay(Loaded(t0), evs).0, LastMutation(evs))
    ensures InitialTracks(t0, Replay(Loaded(t0), evs).0, Replay(Loaded(t0), evs).1)
    decreases |evs|
  {
    if evs != [] {
      var n := |evs| - 1;
      InOrderPrefix(t0, evs, n);
      ReplayTracks(t0, evs[..n]);
      var p := Replay(Loaded(t0), evs[..n]);
      StepDebounce(p.0, LastMutation(evs[..n]), evs[n]);
      StepInitial(t0, p.0, p.1, evs[n]);
    } else {
      assert InitialRuns([]) == 0;
    }
  }

  /**
   * `analyzeFeed` runs from the debounce timer only after `SETTLE` quiet
   * milliseconds: the timer that runs at the next event `e` was set by the
   * last mutation, which lies `SETTLE` before it, and no mutation came later.
   */
  lemma SettledAfterQuiet(t0: int, evs: seq<Event>, e: Event, x: int)
    requires InOrder(t0, evs) && LastTime(t0, evs) <= e.t
    requires Fire(Settled, x) in Step(Replay(Loaded(t0), evs).0, e).1
    ensures LastMutation(evs) == Some(x - SETTLE) && x <= e.t
    ensures forall i :: 0 <= i < |evs| && evs[i].Mutation? ==> evs[i].t <= x - SETTLE
  {
    var s := Replay(Loaded(t0), evs).0;
    ReplayTracks(t0, evs);
    SettledFromTracks(s, LastMutation(evs), e.t, x);
    LastMutationLatest(evs);
  }

  /** A debounce run comes from the timer the last mutation set. */
  lemma SettledFromTracks(s: Timers, last: Option<int>, t: int, x: int)
    requires DebounceTracks(s, last) && Fire(Settled, x) in Fired(s, t)
    ensures last == Some(x - SETTLE) && x <= t
  {
    var fs := Fired(s, t);
    var k :| 0 <= k < |fs| && fs[k] == Fire(Settled, x);
    assert s.debounce == Some(x);
  }

  /** The last mutation of an ordered trace is the latest one. */
  lemma {:induction false} LastMutationLatest(evs: seq<Event>)
    requires forall i, j :: 0 <= i < j < |evs| ==> evs[i].t <= evs[j].t
    ensures LastMutation(evs).Some? <==> exists i :: 0 <= i < |evs| && evs[i].Mutation?
    ensures LastMutation(evs).Some? ==> forall i :: 0 <= i < |evs| && evs[i].Mutation? ==> evs[i].t <= LastMutation(evs).value
    decreases |evs|
  {
    if evs != [] {
      var n := |evs| - 1;
      assert forall i :: 0 <= i < n ==> evs[..n][i] == evs[i];
      LastMutationLatest(evs[..n]);
    }
  }

  /** Conversely, once `SETTLE` milliseconds pass after the last mutation the debounce timer runs. */
  lemma SettledWhenQuiet(t0: int, evs: seq<Event>, e: Event, m: int)
    requires InOrder(t0, evs) && LastTime(t0, evs) <= e.t
    requires LastMutation(evs) == Some(m) && LastTime(t0, evs) < m + SETTLE <= e.t
    ensures Fire(Settled, m + SETTLE) in Step(Replay(Loaded(t0), evs).0, e).1
  {
    ReplayTracks(t0, evs);
    var s := Replay(Loaded(t0), evs).0;
    assert s.debounce == Some(m + SETTLE);
    assert Due(s.debounce, e.t);
    assert Step(s, e).1 == Fired(s, e.t);
  }

  /** The initial timer runs `analyzeFeed` once in any trace that reaches `INITIAL_DELAY` after load, never otherwise, and at that time. */
  lemma InitialOnce(t0: int, evs: seq<Event>)
    requires InOrder(t0, evs)
    ensures InitialRuns(Replay(Loaded(t0), evs).1) == if LastTime(t0, evs) < t0 + INITIAL_DELAY then 0 else 1
    ensures forall i :: 0 <= i < |Replay(Loaded(t0), evs).1| && Replay(Loaded(t0), evs).1[i].timer == Initial ==>
      Replay(Loaded(t0), evs).1[i].at == t0 + INITIAL_DELAY
  {
    ReplayTracks(t0, evs);
  }

  /**
   * The content script on a page: the annotation pipeline and its timers.
   * Each timer that runs calls `analyzeFeed`; each mutation calls
   * `injectCachedTags` and re-arms the debounce timer.
   */
  class Page {
    const pipeline: Pipeline
    var timers: Timers

    ghost predicate Valid()
      reads this, pipeline
    {
      pipeline.Valid() && Future(timers)
    }

    /** The script loads at time `t0` on a page showing `texts`. */
    constructor(texts: seq<string>, t0: int)
      ensures Valid() && fresh(pipeline)
      ensures timers == Loaded(t0)
      ensures pipeline.cache == [] && !pipeline.analyzing && pipeline.stored.None?
      ensures pipeline.doc == seq(|texts|, i requires 0 <= i < |texts| => Fresh(texts[i]))
    {
      pipeline := new Pipeline(texts);
      timers := Loaded(t0);
    }

    /**
     * The clock reaches `t`: each due timer, earliest first, runs `analyzeFeed`;
     * `sent` holds what each of those calls sent. Only the first run can
     * change anything: the second finds its request outstanding, or nothing
     * new to send.
     */
    method Tick(t: int) returns (sent: seq<Option<seq<string>>>)
      requires Valid() && timers.now <= t
      modifies this, pipeline
      ensures Valid()
      ensures timers == Advance(old(timers), t)
      ensures |sent| == |Fired(old(timers), t)|
      ensures pipeline.cache == old(pipeline.cache) && pipeline.stored == old(pipeline.stored)
      ensures sent == [] ==> pipeline.doc == old(pipeline.doc) && pipeline.inflight == old(pipeline.inflight)
      ensures sent != [] ==>
        Started(pipeline.doc, pipeline.inflight, sent[0]) == Analyze(old(pipeline.doc), old(pipeline.cache), old(pipeline.inflight))
      ensures forall j :: 1 <= j < |sent| ==> sent[j].None?
    {
      var fires := Fired(timers, t);
      timers := Advance(timers, t);
      sent := [];
      AnalyzeTwice(pipeline.doc, pipeline.cache, pipeline.inflight);
      for i := 0 to |fires|
        invariant pipeline.Valid() && |sent| == i && timers == Advance(old(timers), t)
        invariant pipeline.cache == old(pipeline.cache) && pipeline.stored == old(pipeline.stored)
        invariant i == 0 ==> pipeline.doc == old(pipeline.doc) && pipeline.inflight == old(pipeline.inflight)
        invariant i > 0 ==>
          Started(pipeline.doc, pipeline.inflight, sent[0]) == Analyze(old(pipeline.doc), old(pipeline.cache), old(pipeline.inflight))
        invariant forall j :: 1 <= j < i ==> sent[j].None?
      {
        var s := pipeline.AnalyzeFeed();
        sent := sent + [s];
      }
    }

    /**
     * The page adds the tweets `added` at time `t`: the due timers run first,
     * then the observer callback injects the cached tags and re-arms the
     * debounce timer.
     */
    method OnMutation(t: int, added: seq<string>) returns (sent: seq<Option<seq<string>>>)
      requires Valid() && timers.now <= t
      modifies this, pipeline
      ensures Valid()
      ensures timers == Mutate(Advance(old(timers), t))
      ensures |sent| == |Fired(old(timers), t)|
      ensures pipeline.cache == old(pipeline.cache) && pipeline.stored == old(pipeline.stored)
      ensures sent == [] ==>
        && pipeline.doc == InjectAll(old(pipeline.doc) + seq(|added|, i requires 0 <= i < |added| => Fresh(added[i])), pipeline.cache)
        && pipeline.inflight == old(pipeline.inflight)
      ensures sent != [] ==>
        var a := Analyze(old(pipeline.doc), old(pipeline.cache), old(pipeline.inflight));
        && sent[0] == a.sent
        && pipeline.doc == InjectAll(a.doc + seq(|added|, i requires 0 <= i < |added| => Fresh(added[i])), pipeline.cache)
        && pipeline.inflight == a.inflight
      ensures forall j :: 1 <= j < |sent| ==> sent[j].None?
    {
      sent := Tick(t);
      pipeline.AddElements(added);
      pipeline.InjectCachedTags();
      timers := Mutate(timers);
    }
  }
}

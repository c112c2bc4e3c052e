/** Tempo maps of MIDI files: how one is collected from the tracks, and the duration computed from it. */
module TempoMaps {
  import opened Options

  /** From `tick` on, a quarter note lasts `us` microseconds. */
  datatype Tempo = Tempo(tick: nat, us: nat)

  const DEFAULT_US: nat := 500_000

  ghost predicate Sorted(tempos: seq<Tempo>) {
    forall i, j :: 0 <= i < j < |tempos| ==> tempos[i].tick <= tempos[j].tick
  }

  // ---------- The meaning of a tempo map ----------

  /** The last tempo event of a sorted map at or before tick t. */
  function Last(tempos: seq<Tempo>, t: nat): (r: Option<Tempo>)
    ensures r.Some? ==> r.value in tempos && r.value.tick <= t
  {
    if tempos == [] then None
    else if tempos[|tempos| - 1].tick <= t then Some(tempos[|tempos| - 1])
    else Last(tempos[..|tempos| - 1], t)
  }

  function Active(tempos: seq<Tempo>, defaultUs: nat, t: nat): nat {
    var e := Last(tempos, t);
    if e.Some? then e.value.us else defaultUs
  }

  /** Where the segment of constant tempo that holds tick t begins. */
  function SegmentStart(tempos: seq<Tempo>, t: nat): (start: nat)
    ensures start <= t
  {
    var e := Last(tempos, t);
    if e.Some? then e.value.tick else 0
  }

  /** Every tick before `target` lasts the tempo active at it, in units of 1/tpq microseconds. */
  function TickSum(tempos: seq<Tempo>, defaultUs: nat, target: nat): nat {
    if target == 0 then 0 else TickSum(tempos, defaultUs, target - 1) + Active(tempos, defaultUs, target - 1)
  }

  /** What the computation counts twice: the segment up to the target, when an event sits at or after the target. */
  function CountedTwice(tempos: seq<Tempo>, defaultUs: nat, target: nat): int {
    if target > 0 && exists e :: e in tempos && e.tick >= target
    then TickSum(tempos, defaultUs, target) - TickSum(tempos, defaultUs, SegmentStart(tempos, target - 1))
    else 0
  }

  /** A count of 1/tpq microseconds in seconds; no time passes when the file gives no ticks per quarter. */
  function Seconds(ticks: int, tpq: nat): real {
    if tpq == 0 then 0.0 else ticks as real / tpq as real / 1_000_000.0
  }

  // ---------- Segments ----------

  lemma {:induction false} LastIsAt(tempos: seq<Tempo>, i: nat, t: nat)
    requires Sorted(tempos) && i <= |tempos|
    requires i > 0 ==> tempos[i - 1].tick <= t
    requires i < |tempos| ==> t < tempos[i].tick
    ensures Last(tempos, t) == if i > 0 then Some(tempos[i - 1]) else None
    decreases |tempos|
  {
    if i < |tempos| {
      var init := tempos[..|tempos| - 1];
      assert t < tempos[|tempos| - 1].tick;
      LastIsAt(init, i, t);
    }
  }

  function Product(ticks: nat, us: nat): nat { ticks * us }

  lemma ProductStep(ticks: nat, us: nat)
    ensures Product(ticks + 1, us) == Product(ticks, us) + us && Product(0, us) == 0
  {
  }

  /** Between two neighbouring events every tick lasts the same. */
  lemma {:induction false} SegmentSum(tempos: seq<Tempo>, defaultUs: nat, i: nat, hi: nat)
    requires Sorted(tempos) && i <= |tempos|
    requires i > 0 ==> tempos[i - 1].tick <= hi
    requires i < |tempos| ==> hi <= tempos[i].tick
    ensures var lo := if i > 0 then tempos[i - 1].tick else 0;
            TickSum(tempos, defaultUs, hi)
              == TickSum(tempos, defaultUs, lo) + Product(hi - lo, if i > 0 then tempos[i - 1].us else defaultUs)
    decreases hi
  {
    hide Product;
    var lo := if i > 0 then tempos[i - 1].tick else 0;
    ProductStep(if hi > lo then hi - lo - 1 else 0, if i > 0 then tempos[i - 1].us else defaultUs);
    if hi > lo {
      SegmentSum(tempos, defaultUs, i, hi - 1);
      LastIsAt(tempos, i, hi - 1);
    }
  }

  lemma ProductZeroIff(ticks: nat, us: nat)
    requires ticks > 0
    ensures Product(ticks, us) == 0 <==> us == 0
  {}

  /** `delta / tpq * us`, the microseconds of one segment. */
  function SegmentMicros(ticks: nat, tpq: nat, us: nat): real
    requires tpq > 0
  {
    ticks as real / tpq as real * us as real
  }

  /** A count of 1/tpq microseconds in microseconds. */
  function Micros(sum: nat, tpq: nat): real
    requires tpq > 0
  {
    sum as real / tpq as real
  }

  lemma MicrosAdd(sum: nat, ticks: nat, us: nat, tpq: nat)
    requires tpq > 0
    ensures Micros(sum, tpq) + SegmentMicros(ticks, tpq, us) == Micros(sum + Product(ticks, us), tpq)
  {}

  lemma MicrosOfNothing(tpq: nat)
    requires tpq > 0
    ensures Micros(0, tpq) == 0.0
  {
  }

  lemma MicrosToSeconds(sum: nat, tpq: nat)
    requires tpq > 0
    ensures Micros(sum, tpq) / 1_000_000.0 == Seconds(sum, tpq)
  {
  }

  // ---------- The computation ----------

  lemma NoTicksPerQuarter(ticks: int)
    ensures Seconds(ticks, 0) == 0.0
  {
  }

  lemma NothingAtZero(tempos: seq<Tempo>, defaultUs: nat)
    ensures TickSum(tempos, defaultUs, 0) == 0
  {
  }

  /** Exactly the per-tick sum, plus a second copy of the last segment when an event sits at or after the target. */
  method TicksToSeconds(target: nat, tpq: nat, tempos: seq<Tempo>, defaultUs: nat) returns (seconds: real)
    requires Sorted(tempos)
    ensures seconds == Seconds(TickSum(tempos, defaultUs, target) + CountedTwice(tempos, defaultUs, target), tpq)
  {
    hide Product, TickSum, Last, SegmentMicros, Micros, Seconds;
    NoTicksPerQuarter(TickSum(tempos, defaultUs, target) + CountedTwice(tempos, defaultUs, target));
    if tpq == 0 { return 0.0; }
    MicrosOfNothing(tpq);
    var elapsed := 0.0;
    var prev: nat := 0;
    var current := defaultUs;
    ghost var sum: nat := 0;
    var i: nat := 0;
    NothingAtZero(tempos, defaultUs);
    while i < |tempos|
      invariant i <= |tempos|
      invariant prev == (if i > 0 then tempos[i - 1].tick else 0) &&
                current == (if i > 0 then tempos[i - 1].us else defaultUs)
      invariant forall j :: 0 <= j < i ==> tempos[j].tick < target
      invariant sum == TickSum(tempos, defaultUs, prev) && elapsed == Micros(sum, tpq)
    {
      var end := if tempos[i].tick < target then tempos[i].tick else target;
      if end > prev {
        MicrosAdd(sum, end - prev, current, tpq);
        SegmentSum(tempos, defaultUs, i, end);
        elapsed := elapsed + SegmentMicros(end - prev, tpq, current);
        sum := sum + Product(end - prev, current);
      }
      if tempos[i].tick >= target {
        assert tempos[i] in tempos;
        break;
      }
      current := tempos[i].us;
      prev := tempos[i].tick;
      i := i + 1;
    }
    if target > prev {
      MicrosAdd(sum, target - prev, current, tpq);
      SegmentSum(tempos, defaultUs, i, target);
      LastIsAt(tempos, i, target - 1);
      elapsed := elapsed + SegmentMicros(target - prev, tpq, current);
      sum := sum + Product(target - prev, current);
    }
    seconds := elapsed / 1_000_000.0;
    MicrosToSeconds(sum, tpq);
  }

  lemma FirstAfter(tempos: seq<Tempo>, t: nat) returns (i: nat)
    requires Sorted(tempos)
    ensures i <= |tempos| && (i > 0 ==> tempos[i - 1].tick <= t) && (i < |tempos| ==> t < tempos[i].tick)
  {
    i := 0;
    while i < |tempos| && tempos[i].tick <= t
      invariant i <= |tempos| && (i > 0 ==> tempos[i - 1].tick <= t)
    {
      i := i + 1;
    }
  }

  /** The segment holding tick t lasts, up to and including t, its length times its tempo. */
  lemma SegmentOf(tempos: seq<Tempo>, defaultUs: nat, t: nat)
    requires Sorted(tempos)
    ensures var start, us := SegmentStart(tempos, t), Active(tempos, defaultUs, t);
            TickSum(tempos, defaultUs, t + 1) == TickSum(tempos, defaultUs, start) + Product(t + 1 - start, us)
  {
    hide Product, Last, TickSum;
    var i := FirstAfter(tempos, t);
    LastIsAt(tempos, i, t);
    SegmentSum(tempos, defaultUs, i, t + 1);
  }

  /** The plain per-tick sum comes out exactly when no event sits at or after the target, or time stands still there. */
  lemma ExactIff(target: nat, tempos: seq<Tempo>, defaultUs: nat)
    requires Sorted(tempos)
    ensures CountedTwice(tempos, defaultUs, target) == 0 <==>
              (forall e :: e in tempos ==> e.tick < target) || target == 0 || Active(tempos, defaultUs, target - 1) == 0
  {
    hide Product, Last, TickSum, Active;
    if target > 0 && exists e :: e in tempos && e.tick >= target {
      SegmentOf(tempos, defaultUs, target - 1);
      ProductZeroIff(target - SegmentStart(tempos, target - 1), Active(tempos, defaultUs, target - 1));
    }
  }

  // ---------- Collecting the map from the tracks ----------

  datatype MidiEvent = MidiEvent(delta: nat, tempo: Option<nat>)

  function Ticks(track: seq<MidiEvent>): nat {
    if track == [] then 0 else Ticks(track[..|track| - 1]) + track[|track| - 1].delta
  }

  function Tempos(track: seq<MidiEvent>): seq<Tempo> {
    if track == [] then []
    else
      var rest := Tempos(track[..|track| - 1]);
      match track[|track| - 1].tempo
      case None => rest
      case Some(us) => rest + [Tempo(Ticks(track), us)]
  }

  function AllTempos(tracks: seq<seq<MidiEvent>>): seq<Tempo> {
    if tracks == [] then [] else AllTempos(tracks[..|tracks| - 1]) + Tempos(tracks[|tracks| - 1])
  }

  function MaxTick(tracks: seq<seq<MidiEvent>>): nat {
    if tracks == [] then 0
    else
      var rest, own := MaxTick(tracks[..|tracks| - 1]), Ticks(tracks[|tracks| - 1]);
      if own > rest then own else rest
  }

  /** Stable insertion: a later event of the same tick goes after. */
  function Insert(tempos: seq<Tempo>, e: Tempo): (r: seq<Tempo>)
    ensures multiset(r) == multiset(tempos) + multiset{e}
  {
    if tempos == [] then [e]
    else
      var n := |tempos| - 1;
      assert tempos == tempos[..n] + [tempos[n]];
      if tempos[n].tick <= e.tick then tempos + [e] else Insert(tempos[..n], e) + [tempos[n]]
  }

  /** `sort_by_key` on the tick, which is stable. */
  function SortByTick(tempos: seq<Tempo>): (r: seq<Tempo>)
    ensures multiset(r) == multiset(tempos)
  {
    if tempos == [] then []
    else
      var n := |tempos| - 1;
      assert tempos == tempos[..n] + [tempos[n]];
      Insert(SortByTick(tempos[..n]), tempos[n])
  }

  lemma InsertedIsOld(tempos: seq<Tempo>, e: Tempo)
    ensures forall x :: x in Insert(tempos, e) ==> x == e || x in tempos
  {
    var r := Insert(tempos, e);
    forall x | x in r ensures x == e || x in tempos {
      assert x in multiset(r);
      assert x in multiset(tempos) + multiset{e};
    }
  }

  lemma {:induction false} InsertSorted(tempos: seq<Tempo>, e: Tempo)
    requires Sorted(tempos)
    ensures Sorted(Insert(tempos, e))
    decreases |tempos|
  {
    if tempos != [] && tempos[|tempos| - 1].tick > e.tick {
      var n := |tempos| - 1;
      InsertSorted(tempos[..n], e);
      var head := Insert(tempos[..n], e);
      InsertedIsOld(tempos[..n], e);
      forall k | 0 <= k < |head| ensures head[k].tick <= tempos[n].tick {
        assert head[k] in head;
      }
    }
  }

  lemma {:induction false} SortByTickSorted(tempos: seq<Tempo>)
    ensures Sorted(SortByTick(tempos))
    decreases |tempos|
  {
    if tempos != [] {
      SortByTickSorted(tempos[..|tempos| - 1]);
      InsertSorted(SortByTick(tempos[..|tempos| - 1]), tempos[|tempos| - 1]);
    }
  }

  /** The event that governs tick t among events in any order: the latest tick wins, then the latest in file order. */
  function Governing(tempos: seq<Tempo>, t: nat): Option<Tempo> {
    if tempos == [] then None
    else
      var e, g := tempos[|tempos| - 1], Governing(tempos[..|tempos| - 1], t);
      if e.tick <= t && (g.None? || g.value.tick <= e.tick) then Some(e) else g
  }

  lemma {:induction false} LastAfterInsert(tempos: seq<Tempo>, e: Tempo, t: nat)
    requires Sorted(tempos)
    ensures var g := Last(tempos, t);
            Last(Insert(tempos, e), t) == if e.tick <= t && (g.None? || g.value.tick <= e.tick) then Some(e) else g
    decreases |tempos|
  {
    if tempos == [] {
      assert [e][..0] == [];
    } else {
      var n := |tempos| - 1;
      if tempos[n].tick <= e.tick {
        assert (tempos + [e])[..n + 1] == tempos;
        if g :| g in tempos && g.tick > e.tick { assert false; }
      } else {
        LastAfterInsert(tempos[..n], e, t);
        var r := Insert(tempos[..n], e) + [tempos[n]];
        assert r[..|r| - 1] == Insert(tempos[..n], e);
      }
    }
  }

  /** Looking up a tick in the sorted map finds the event that governs it in the file. */
  lemma {:induction false} SortedMapGoverns(tempos: seq<Tempo>, t: nat)
    ensures Last(SortByTick(tempos), t) == Governing(tempos, t)
    decreases |tempos|
  {
    if tempos != [] {
      var n := |tempos| - 1;
      SortedMapGoverns(tempos[..n], t);
      SortByTickSorted(tempos[..n]);
      LastAfterInsert(SortByTick(tempos[..n]), tempos[n], t);
    }
  }

  /** No event of any track lies beyond the longest track. */
  lemma {:induction false} TemposWithin(track: seq<MidiEvent>)
    ensures forall e :: e in Tempos(track) ==> e.tick <= Ticks(track)
    decreases |track|
  {
    if track != [] { TemposWithin(track[..|track| - 1]); }
  }

  lemma {:induction false} AllTemposWithin(tracks: seq<seq<MidiEvent>>)
    ensures forall e :: e in AllTempos(tracks) ==> e.tick <= MaxTick(tracks)
    decreases |tracks|
  {
    if tracks != [] {
      AllTemposWithin(tracks[..|tracks| - 1]);
      TemposWithin(tracks[|tracks| - 1]);
    }
  }

  /** The ticks of a track add up. */
  lemma {:induction false} TicksAddUp(a: seq<MidiEvent>, b: seq<MidiEvent>, e: MidiEvent)
    ensures Ticks(a + b) == Ticks(a) + Ticks(b) && Ticks([e]) == e.delta
    decreases |b|
  {
    assert [e][..0] == [] && Ticks([]) == 0;
    if b == [] {
      assert a + b == a;
    } else {
      TicksAddUp(a, b[..|b| - 1], e);
      assert (a + b)[..|a + b| - 1] == a + b[..|b| - 1];
    }
  }

  /** Tempo events that begin after so many ticks. */
  function After(ticks: nat, tempos: seq<Tempo>): seq<Tempo> {
    seq(|tempos|, i requires 0 <= i < |tempos| => tempos[i].(tick := ticks + tempos[i].tick))
  }

  lemma LastTempo(track: seq<MidiEvent>)
    requires track != []
    ensures var e := track[|track| - 1];
            Tempos(track) ==
            Tempos(track[..|track| - 1]) + if e.tempo.Some? then [Tempo(Ticks(track), e.tempo.value)] else []
  {
  }

  lemma AfterPush(ticks: nat, tempos: seq<Tempo>, e: Tempo)
    ensures After(ticks, tempos + [e]) == After(ticks, tempos) + [e.(tick := ticks + e.tick)]
  {
  }

  lemma OneTempo(e: MidiEvent)
    ensures Tempos([e]) == if e.tempo.Some? then [Tempo(e.delta, e.tempo.value)] else []
  {
    assert [e][..0] == [] && Tempos([]) == [] && Ticks([]) == 0;
    assert Ticks([e]) == e.delta;
  }

  lemma NoTempos(tempos: seq<Tempo>, ticks: nat)
    ensures tempos + After(ticks, Tempos([])) == tempos
  {
  }

  /** The tempo events of a track, each as many ticks into it as the deltas before and of the event add up to. */
  lemma {:induction false} TemposInOrder(a: seq<MidiEvent>, b: seq<MidiEvent>, e: MidiEvent)
    ensures Tempos(a + b) == Tempos(a) + After(Ticks(a), Tempos(b))
    ensures Tempos([e]) == if e.tempo.Some? then [Tempo(e.delta, e.tempo.value)] else []
    decreases |b|
  {
    hide Tempos, Ticks, After;
    OneTempo(e);
    if b == [] {
      assert a + b == a;
      NoTempos(Tempos(a), Ticks(a));
    } else {
      var n := |b| - 1;
      TemposInOrder(a, b[..n], e);
      TicksAddUp(a, b, e);
      assert (a + b)[..|a + b| - 1] == a + b[..n] && (a + b)[|a + b| - 1] == b[n];
      LastTempo(a + b);
      LastTempo(b);
      if b[n].tempo.Some? {
        var last := Tempo(Ticks(b), b[n].tempo.value);
        AfterPush(Ticks(a), Tempos(b[..n]), last);
        assert Tempos(a) + After(Ticks(a), Tempos(b[..n])) + [last.(tick := Ticks(a) + Ticks(b))] ==
               Tempos(a) + (After(Ticks(a), Tempos(b[..n])) + [last.(tick := Ticks(a) + Ticks(b))]);
      } else {
        assert Tempos(b) == Tempos(b[..n]) && Tempos(a + b) == Tempos(a + b[..n]);
      }
    }
  }

  /** The tempo map holds the events of all tracks, track by track, and the file is as long as its longest track. */
  lemma {:induction false} TracksInOrder(tracks: seq<seq<MidiEvent>>, more: seq<seq<MidiEvent>>, track: seq<MidiEvent>)
    ensures AllTempos(tracks + more) == AllTempos(tracks) + AllTempos(more) && AllTempos([track]) == Tempos(track)
    ensures forall t :: t in more ==> Ticks(t) <= MaxTick(more)
    ensures more != [] ==> exists t :: t in more && Ticks(t) == MaxTick(more)
    decreases |more|
  {
    hide Ticks, Tempos;
    var none: seq<seq<MidiEvent>> := [];
    assert [track][..0] == none && AllTempos(none) == [];
    if more == [] {
      assert tracks + more == tracks;
    } else {
      var n := |more| - 1;
      TracksInOrder(tracks, more[..n], track);
      assert (tracks + more)[..|tracks + more| - 1] == tracks + more[..n];
      assert more == more[..n] + [more[n]];
      assert n == 0 ==> more[..n] == none;
    }
  }

  /** The governing event is at or before the tick; a later one in time, or as late and later in the file, is not. */
  lemma {:induction false} GoverningIsLatest(tempos: seq<Tempo>, t: nat) returns (i: nat)
    ensures Governing(tempos, t).None? <==> forall e :: e in tempos ==> e.tick > t
    ensures Governing(tempos, t).Some? ==>
              && i < |tempos| && tempos[i] == Governing(tempos, t).value && tempos[i].tick <= t
              && forall j :: 0 <= j < |tempos| && tempos[j].tick <= t ==>
                   tempos[j].tick < tempos[i].tick || (tempos[j].tick == tempos[i].tick && j <= i)
    decreases |tempos|
  {
    i := 0;
    if tempos != [] {
      var n := |tempos| - 1;
      i := GoverningIsLatest(tempos[..n], t);
      assert tempos == tempos[..n] + [tempos[n]];
      assert forall j :: 0 <= j < n ==> tempos[..n][j] == tempos[j];
      if Governing(tempos, t) == Some(tempos[n]) { i := n; }
    }
  }

  /** One pass over all tracks collects the tempo events and the length of the longest track. */
  method CollectTempos(tracks: seq<seq<MidiEvent>>) returns (tempos: seq<Tempo>, maxTick: nat)
    ensures tempos == AllTempos(tracks) && maxTick == MaxTick(tracks)
  {
    tempos, maxTick := [], 0;
    for i := 0 to |tracks|
      invariant tempos == AllTempos(tracks[..i]) && maxTick == MaxTick(tracks[..i])
    {
      assert tracks[..i + 1][..i] == tracks[..i];
      ghost var before := tempos;
      var absolute: nat := 0;
      for k := 0 to |tracks[i]|
        invariant absolute == Ticks(tracks[i][..k]) && tempos == before + Tempos(tracks[i][..k])
      {
        assert tracks[i][..k + 1][..k] == tracks[i][..k];
        absolute := absolute + tracks[i][k].delta;
        if tracks[i][k].tempo.Some? { tempos := tempos + [Tempo(absolute, tracks[i][k].tempo.value)]; }
      }
      assert tracks[i][..|tracks[i]|] == tracks[i];
      if absolute > maxTick { maxTick := absolute; }
    }
    assert tracks[..|tracks|] == tracks;
  }

  /** The duration the file states: every tick lasts the tempo that governs it. */
  function StatedTicks(tempos: seq<Tempo>, target: nat): nat {
    if target == 0 then 0
    else
      var g := Governing(tempos, target - 1);
      StatedTicks(tempos, target - 1) + if g.Some? then g.value.us else DEFAULT_US
  }

  lemma {:induction false} SortedSumIsStated(tempos: seq<Tempo>, target: nat)
    ensures TickSum(SortByTick(tempos), DEFAULT_US, target) == StatedTicks(tempos, target)
    decreases target
  {
    hide SortByTick, Last, Governing;
    if target > 0 {
      SortedSumIsStated(tempos, target - 1);
      SortedMapGoverns(tempos, target - 1);
    }
  }

  /** The file states its duration exactly: no tempo event on its last tick, unless time stands still there anyway. */
  ghost predicate EndsPlainly(tracks: seq<seq<MidiEvent>>) {
    var tempos, last := AllTempos(tracks), MaxTick(tracks);
    || (forall e :: e in tempos ==> e.tick != last)
    || last == 0
    || (var g := Governing(tempos, last - 1); g.Some? && g.value.us == 0)
  }

  lemma SecondsAgreeIff(a: int, b: int, tpq: nat)
    ensures Seconds(a, tpq) == Seconds(b, tpq) <==> tpq == 0 || a == b
  {
    if tpq > 0 && a != b {
      var t := tpq as real;
      assert a as real != b as real;
      assert a as real / t * t == a as real && b as real / t * t == b as real;
    }
  }

  lemma SameEvents(tempos: seq<Tempo>)
    ensures forall e :: e in SortByTick(tempos) <==> e in tempos
  {
    assert forall e :: e in SortByTick(tempos) <==> e in multiset(SortByTick(tempos));
  }

  lemma NothingTwiceIff(tracks: seq<seq<MidiEvent>>)
    ensures CountedTwice(SortByTick(AllTempos(tracks)), DEFAULT_US, MaxTick(tracks)) == 0 <==> EndsPlainly(tracks)
  {
    hide SortByTick, Last, Governing, AllTempos, MaxTick, CountedTwice;
    var tempos, last := AllTempos(tracks), MaxTick(tracks);
    SortByTickSorted(tempos);
    ExactIff(last, SortByTick(tempos), DEFAULT_US);
    AllTemposWithin(tracks);
    SameEvents(tempos);
    if last > 0 { SortedMapGoverns(tempos, last - 1); }
  }

  /** For the files the parser reads, the seconds computed are the stated ones exactly when the file ends plainly. */
  lemma DurationExactIff(tracks: seq<seq<MidiEvent>>, tpq: nat)
    ensures var tempos, last := AllTempos(tracks), MaxTick(tracks);
            var computed := Seconds(StatedTicks(tempos, last) + CountedTwice(SortByTick(tempos), DEFAULT_US, last),
                                    tpq);
            computed == Seconds(StatedTicks(tempos, last), tpq) <==> tpq == 0 || EndsPlainly(tracks)
  {
    hide *;
    var tempos, last := AllTempos(tracks), MaxTick(tracks);
    NothingTwiceIff(tracks);
    var stated := StatedTicks(tempos, last);
    SecondsAgreeIff(stated + CountedTwice(SortByTick(tempos), DEFAULT_US, last), stated, tpq);
  }

  /**
   The duration of a file is the stated one with the double count, and is the stated one exactly when the file ends
   plainly or gives no ticks per quarter.
   */
  method Duration(tracks: seq<seq<MidiEvent>>, tpq: nat) returns (seconds: real)
    ensures var tempos, last := AllTempos(tracks), MaxTick(tracks);
            seconds == Seconds(StatedTicks(tempos, last) + CountedTwice(SortByTick(tempos), DEFAULT_US, last), tpq)
    ensures seconds == Seconds(StatedTicks(AllTempos(tracks), MaxTick(tracks)), tpq) <==>
            tpq == 0 || EndsPlainly(tracks)
  {
    hide *;
    var tempos, maxTick := CollectTempos(tracks);
    SortByTickSorted(tempos);
    seconds := TicksToSeconds(maxTick, tpq, SortByTick(tempos), DEFAULT_US);
    SortedSumIsStated(tempos, maxTick);
    DurationExactIff(tracks, tpq);
  }

  lemma {:induction false} UnsetTicks(target: nat)
    ensures StatedTicks([], target) == target * 500_000
  {
    if target > 0 { UnsetTicks(target - 1); }
  }

  /** A file that sets no tempo plays 120 quarter notes a minute. */
  lemma {:induction false} DefaultTempo(quarters: nat, tpq: nat)
    requires tpq > 0
    ensures Seconds(StatedTicks([], quarters * tpq), tpq) == quarters as real / 2.0
  {
    UnsetTicks(quarters * tpq);
    var t, q := tpq as real, quarters as real;
    assert (quarters * tpq * 500_000) as real == q * t * 500_000.0;
    assert q * t * 500_000.0 / t == q * 500_000.0;
  }

  lemma SingleEventFile(e: Tempo)
    requires e.tick == 1
    ensures AllTempos([[MidiEvent(1, Some(e.us))]]) == [e] && MaxTick([[MidiEvent(1, Some(e.us))]]) == 1
  {
    var track := [MidiEvent(1, Some(e.us))];
    var none: seq<seq<MidiEvent>> := [];
    assert track[..|track| - 1] == [] && [track][..0] == none;
    assert Ticks([]) == 0 && Tempos([]) == [];
    assert Ticks(track) == 1;
    assert Tempos(track) == [Tempo(1, e.us)];
    assert AllTempos(none) == [] && MaxTick(none) == 0;
    assert AllTempos([track]) == AllTempos([track][..0]) + Tempos(track);
  }

  lemma SingleSort(e: Tempo)
    ensures SortByTick([e]) == [e]
  {}

  lemma SingleTwice(e: Tempo)
    requires e.tick == 1
    ensures CountedTwice([e], DEFAULT_US, 1) == TickSum([e], DEFAULT_US, 1) == DEFAULT_US
  {}

  lemma OneTick(tempos: seq<Tempo>)
    ensures TickSum(tempos, DEFAULT_US, 0) == 0 && TickSum(tempos, DEFAULT_US, 1) == Active(tempos, DEFAULT_US, 0)
  {
  }

  /** A single tempo event on the last tick of a one-tick file doubles its duration. */
  lemma LastTickCountsTwice(e: Tempo)
    requires e.tick == 1
    ensures var tracks := [[MidiEvent(1, Some(e.us))]];
            && AllTempos(tracks) == [e] && MaxTick(tracks) == 1
            && StatedTicks([e], 1) == DEFAULT_US && CountedTwice(SortByTick([e]), DEFAULT_US, 1) == DEFAULT_US
  {
    hide *;
    SingleEventFile(e);
    SingleSort(e);
    SingleTwice(e);
    SortedSumIsStated([e], 1);
    OneTick([e]);
  }
}

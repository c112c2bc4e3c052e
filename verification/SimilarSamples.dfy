/** Similar-sample lookup: a search that doubles its fetch size, against filtering the whole ranking once. */
module SimilarSamples {
  import opened Options

  /** The part of a sample row the lookup reads. */
  datatype Row = Row(id: int, contentHash: Option<string>, embedding: Option<seq<bv8>>)

  /** Four little-endian bytes of an embedding blob. */
  type Word = seq<bv8>

  datatype SimilarityError =
    | NotFound(id: int)
    | MissingEmbedding(id: int)
    | MalformedEmbedding(id: int)
    | InvalidLimit(limit: nat)

  datatype Result<T> = Ok(value: T) | Err(error: SimilarityError)

  const MAX_SIMILAR_SAMPLES := 100
  const USIZE_MAX: nat := 0xFFFF_FFFF_FFFF_FFFF

  function SaturatingDouble(k: nat): nat { if 2 * k > USIZE_MAX then USIZE_MAX else 2 * k }

  function SaturatingSuccessor(k: nat): nat { if k >= USIZE_MAX then USIZE_MAX else k + 1 }

  // ---------- The simple form ----------

  /** The source itself is never similar to itself; a row of equal content is dropped on request. */
  predicate Kept(source: Row, excludeDuplicates: bool, row: Row) {
    && row.id != source.id
    && !(excludeDuplicates && source.contentHash.Some? && row.contentHash == source.contentHash)
  }

  function Filter(source: Row, excludeDuplicates: bool, rows: seq<Row>): seq<Row> {
    if rows == [] then []
    else
      var rest := Filter(source, excludeDuplicates, rows[..|rows| - 1]);
      if Kept(source, excludeDuplicates, rows[|rows| - 1]) then rest + [rows[|rows| - 1]] else rest
  }

  function Take<T>(s: seq<T>, n: nat): seq<T> { if |s| <= n then s else s[..n] }

  /** The rows the caller is promised: the best `limit` of the ranking after filtering. */
  function Similar(source: Row, excludeDuplicates: bool, ranking: seq<Row>, limit: nat): seq<Row> {
    Take(Filter(source, excludeDuplicates, ranking), limit)
  }

  /** Chunks of four bytes, as `chunks_exact(4)` yields them. */
  function Words(blob: seq<bv8>): (words: seq<Word>)
    requires |blob| % 4 == 0
    ensures 4 * |words| == |blob|
    ensures forall i :: 0 <= i < |words| ==> words[i] == blob[4 * i..4 * i + 4]
  {
    seq(|blob| / 4, i requires 0 <= i < |blob| / 4 => blob[4 * i..4 * i + 4])
  }

  /** At least one word, and no bytes over. */
  predicate IsVector(blob: seq<bv8>) { |blob| > 0 && |blob| % 4 == 0 }

  function DecodeEmbedding(id: int, blob: Option<seq<bv8>>): Result<seq<Word>> {
    match blob
    case None => Err(MissingEmbedding(id))
    case Some(bytes) => if bytes == [] || |bytes| % 4 != 0 then Err(MalformedEmbedding(id)) else Ok(Words(bytes))
  }

  /** What the lookup answers, in the order its checks are made. */
  function Answer(sampleId: int, source: Option<Row>, rank: seq<Word> -> seq<Row>, limit: nat,
                  excludeDuplicates: bool): Result<seq<Row>> {
    match source
    case None => Err(NotFound(sampleId))
    case Some(row) =>
      match DecodeEmbedding(sampleId, row.embedding)
      case Err(e) => Err(e)
      case Ok(query) =>
        if !(1 <= limit <= MAX_SIMILAR_SAMPLES) then Err(InvalidLimit(limit))
        else Ok(Similar(row, excludeDuplicates, rank(query), limit))
  }

  // ---------- What the simple form means ----------

  lemma {:induction false} FilterConcat(source: Row, excludeDuplicates: bool, a: seq<Row>, b: seq<Row>)
    ensures Filter(source, excludeDuplicates, a + b) ==
            Filter(source, excludeDuplicates, a) + Filter(source, excludeDuplicates, b)
    decreases |b|
  {
    if b == [] {
      assert a + b == a;
    } else {
      var n := |b| - 1;
      FilterConcat(source, excludeDuplicates, a, b[..n]);
      assert (a + b)[..|a + b| - 1] == a + b[..n];
    }
  }

  lemma FilterStep(source: Row, excludeDuplicates: bool, rows: seq<Row>, i: nat)
    requires i < |rows|
    ensures Filter(source, excludeDuplicates, rows[..i + 1])
         == Filter(source, excludeDuplicates, rows[..i]) +
           if Kept(source, excludeDuplicates, rows[i]) then [rows[i]] else []
  {
    assert rows[..i + 1][..i] == rows[..i];
  }

  /** Rows of the answer are kept rows of the ranking, and unless the answer is full every kept row is in it. */
  lemma {:induction false} FilterIsExactlyTheKeptRows(source: Row, excludeDuplicates: bool, ranking: seq<Row>)
    ensures forall row :: row in Filter(source, excludeDuplicates, ranking) <==>
            row in ranking && Kept(source, excludeDuplicates, row)
    decreases |ranking|
  {
    if ranking == [] {
    } else {
      var n := |ranking| - 1;
      FilterIsExactlyTheKeptRows(source, excludeDuplicates, ranking[..n]);
      assert ranking == ranking[..n] + [ranking[n]];
    }
  }

  /**
   The filter keeps, in the order of the ranking, exactly the rows that are not the source itself and do not, if
   duplicates are excluded, share a known content hash with it.
   */
  lemma {:induction false} FilterInOrder(source: Row, excludeDuplicates: bool, ranking: seq<Row>)
    returns (places: seq<nat>)
    ensures var kept := Filter(source, excludeDuplicates, ranking);
            && |places| == |kept| && (forall i :: 0 <= i < |places| ==> places[i] < |ranking|)
            && (forall i :: 0 <= i < |places| ==> kept[i] == ranking[places[i]])
            && (forall i, j :: 0 <= i < j < |places| ==> places[i] < places[j])
    ensures forall k :: 0 <= k < |ranking| ==>
              (k in places <==>
               ranking[k].id != source.id &&
               (excludeDuplicates && source.contentHash.Some? && ranking[k].contentHash.Some? ==>
                  source.contentHash.value != ranking[k].contentHash.value))
    decreases |ranking|
  {
    places := [];
    if ranking != [] {
      var n := |ranking| - 1;
      places := FilterInOrder(source, excludeDuplicates, ranking[..n]);
      assert forall k :: 0 <= k < n ==> ranking[..n][k] == ranking[k];
      if Kept(source, excludeDuplicates, ranking[n]) { places := places + [n]; }
    }
  }

  lemma KeptRowWithRoomIsIn(source: Row, excludeDuplicates: bool, ranking: seq<Row>, limit: nat, k: nat)
    requires k < |ranking| && Kept(source, excludeDuplicates, ranking[k])
    requires |Filter(source, excludeDuplicates, ranking[..k])| < limit
    ensures ranking[k] in Similar(source, excludeDuplicates, ranking, limit)
  {
    var head := Filter(source, excludeDuplicates, ranking[..k]);
    FilterStep(source, excludeDuplicates, ranking, k);
    assert ranking == ranking[..k + 1] + ranking[k + 1..];
    FilterConcat(source, excludeDuplicates, ranking[..k + 1], ranking[k + 1..]);
    assert Similar(source, excludeDuplicates, ranking, limit)[|head|] == ranking[k];
  }

  /** The answer leaves out a kept row only in favour of `limit` better ranked ones. */
  lemma NothingBetterIsLeftOut(source: Row, excludeDuplicates: bool, ranking: seq<Row>, limit: nat, k: nat)
    requires k < |ranking| && Kept(source, excludeDuplicates, ranking[k])
    requires ranking[k] !in Similar(source, excludeDuplicates, ranking, limit)
    ensures Similar(source, excludeDuplicates, ranking, limit) ==
            Similar(source, excludeDuplicates, ranking[..k], limit)
    ensures |Similar(source, excludeDuplicates, ranking, limit)| == limit
  {
    var head := Filter(source, excludeDuplicates, ranking[..k]);
    if |head| < limit { KeptRowWithRoomIsIn(source, excludeDuplicates, ranking, limit, k); }
    assert ranking == ranking[..k] + ranking[k..];
    FilterConcat(source, excludeDuplicates, ranking[..k], ranking[k..]);
    assert (head + Filter(source, excludeDuplicates, ranking[k..]))[..limit] == head[..limit];
  }

  // ---------- The search ----------

  /** `search_by_embedding`: the first k rows of the ranking for a query. */
  function SearchByEmbedding(ranking: seq<Row>, k: nat): seq<Row> { Take(ranking, k) }

  /** Once `limit` kept rows have been found in a prefix, the rest of the ranking does not matter. */
  lemma EnoughFound(source: Row, excludeDuplicates: bool, ranking: seq<Row>, at: nat, limit: nat)
    requires at <= |ranking| && |Filter(source, excludeDuplicates, ranking[..at])| == limit
    ensures Similar(source, excludeDuplicates, ranking, limit) == Filter(source, excludeDuplicates, ranking[..at])
  {
    FilterConcat(source, excludeDuplicates, ranking[..at], ranking[at..]);
    assert ranking == ranking[..at] + ranking[at..];
  }

  lemma FilterOfNothing(source: Row, excludeDuplicates: bool)
    ensures Filter(source, excludeDuplicates, []) == []
  {
  }

  lemma EverythingFiltered(source: Row, excludeDuplicates: bool, ranking: seq<Row>, limit: nat)
    ensures |Filter(source, excludeDuplicates, ranking)| < limit ==>
              Similar(source, excludeDuplicates, ranking, limit) == Filter(source, excludeDuplicates, ranking)
  {
  }

  /**
   The doubling search returns what filtering the whole ranking would, and reads fewer than three times its rows.
   A vector holds at most half as many rows as a `usize` can count.
   */
  method FetchSimilar(source: Row, excludeDuplicates: bool, ranking: seq<Row>, limit: nat)
    returns (results: seq<Row>, ghost fetched: nat)
    requires 1 <= limit <= MAX_SIMILAR_SAMPLES && 2 * |ranking| < USIZE_MAX
    ensures results == Similar(source, excludeDuplicates, ranking, limit)
    ensures ranking != [] ==> fetched < 3 * |ranking|
  {
    hide Filter, Similar;
    FilterOfNothing(source, excludeDuplicates);
    EverythingFiltered(source, excludeDuplicates, ranking, limit);
    results, fetched := [], 0;
    var seen: nat := 0;
    var fetch := SaturatingSuccessor(limit);
    while true
      invariant seen <= |ranking| && seen < fetch
      invariant results == Filter(source, excludeDuplicates, ranking[..seen]) && |results| < limit
      invariant if seen == 0 then fetched == 0 else fetched < 2 * seen && fetch == 2 * seen
      decreases |ranking| - seen
    {
      var batch := SearchByEmbedding(ranking, fetch);
      fetched := fetched + |batch|;
      if |batch| <= seen {
        assert ranking[..seen] == ranking;
        return;
      }
      for i := seen to |batch|
        invariant results == Filter(source, excludeDuplicates, ranking[..i]) && |results| < limit
      {
        FilterStep(source, excludeDuplicates, ranking, i);
        assert batch[i] == ranking[i];
        if batch[i].id == source.id { continue; }
        if excludeDuplicates && source.contentHash.Some? && batch[i].contentHash.Some?
           && batch[i].contentHash.value == source.contentHash.value {
          continue;
        }
        results := results + [batch[i]];
        if |results| >= limit {
          EnoughFound(source, excludeDuplicates, ranking, i + 1, limit);
          return;
        }
      }
      if |batch| < fetch {
        assert ranking[..|batch|] == ranking;
        return;
      }
      seen := |batch|;
      fetch := SaturatingDouble(fetch);
      if fetch <= seen { fetch := SaturatingSuccessor(seen); }
    }
  }

  method FindSimilarSamples(sampleId: int, source: Option<Row>, rank: seq<Word> -> seq<Row>, limit: nat,
                            excludeDuplicates: bool)
    returns (answer: Result<seq<Row>>)
    requires source.Some? ==> source.value.id == sampleId
    requires forall query :: 2 * |rank(query)| < USIZE_MAX
    ensures answer == Answer(sampleId, source, rank, limit, excludeDuplicates)
    ensures source.None? <==> answer == Err(NotFound(sampleId))
    ensures source.Some? && source.value.embedding.None? <==> answer == Err(MissingEmbedding(sampleId))
    ensures source.Some? && source.value.embedding.Some? && !IsVector(source.value.embedding.value) <==>
            answer == Err(MalformedEmbedding(sampleId))
    ensures answer.Ok? || answer == Err(InvalidLimit(limit)) <==>
            source.Some? && source.value.embedding.Some? && IsVector(source.value.embedding.value)
    ensures answer == Err(InvalidLimit(limit)) ==> !(1 <= limit <= 100)
    ensures answer.Ok? ==>
              && 1 <= limit <= 100
              && answer.value ==
                 Similar(source.value, excludeDuplicates, rank(Words(source.value.embedding.value)), limit)
  {
    if source.None? { return Err(NotFound(sampleId)); }
    var query := DecodeEmbedding(sampleId, source.value.embedding);
    if query.Err? { return Err(query.error); }
    if !(1 <= limit <= MAX_SIMILAR_SAMPLES) { return Err(InvalidLimit(limit)); }
    var results, _ := FetchSimilar(source.value, excludeDuplicates, rank(query.value), limit);
    answer := Ok(results);
  }
}

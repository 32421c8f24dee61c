/** The bookkeeping of preprocessing/1_initialisation.py: the fixed-size
    batching of `remap`, its batch count, the accumulation of the mapped
    reactions (RXNMapper itself is a parameter), and the filter that drops
    US patents from Pistachio. */
module Initialisation {
  import opened Wrappers
  import opened Seqs

  // ---------------------------------------------------------------------
  // batch and number_batches
  // ---------------------------------------------------------------------

  /** The batch size `remap` uses. */
  const BatchSize := 32

  /** The slices `batch(xs, n)` yields: `xs[0:n]`, `xs[n:2n]`, ... with
      the last one cut at the end of `xs`. */
  function Chunks<T>(xs: seq<T>, n: int): seq<seq<T>>
    requires n > 0
    decreases |xs|
  {
    if xs == [] then []
    else if |xs| <= n then [xs]
    else [xs[..n]] + Chunks(xs[n..], n)
  }

  /** The slices laid end to end. */
  function Concat<T>(xss: seq<seq<T>>): seq<T>
  {
    if xss == [] then [] else xss[0] + Concat(xss[1..])
  }

  /** `(l - 1) // n + 1`; for a positive divisor Dafny's division is the
      floor division of Python, so an empty list gives `-1 // n + 1 == 0`. */
  function NumberBatches(l: nat, n: int): (r: int)
    requires n > 0
    ensures r >= 0
    ensures r * n >= l
    ensures l > 0 ==> (r - 1) * n < l
    ensures l == 0 ==> r == 0
  {
    var q := (l - 1) / n;
    assert n * q <= l - 1 < n * q + n;
    q + 1
  }

  /** The batch count is the least multiple count covering `l`: it is
      `ceil(l / n)`. */
  lemma NumberBatchesUnique(l: nat, n: int, r: int)
    requires n > 0 && r >= 0 && r * n >= l && (l > 0 ==> (r - 1) * n < l) && (l == 0 ==> r == 0)
    ensures r == NumberBatches(l, n)
  {
    var s := NumberBatches(l, n);
    if l > 0 {
      MulCancel(r - 1, s, n);
      MulCancel(s - 1, r, n);
    }
  }

  /** Cancelling a positive factor of a strict inequality. */
  lemma MulCancel(x: int, y: int, n: int)
    requires n > 0 && x * n < y * n
    ensures x < y
  {
    assert (y - x) * n == y * n - x * n;
  }

  /** `batch(iterable, n)`: the loop over `ndx in range(0, l, n)` yielding
      `iterable[ndx:min(ndx + n, l)]`, collected in order. */
  method Batch<T>(xs: seq<T>, n: int) returns (chunks: seq<seq<T>>)
    requires n > 0
    ensures chunks == Chunks(xs, n)
  {
    var l := |xs|;
    chunks := [];
    var ndx := 0;
    while ndx < l
      invariant 0 <= ndx
      invariant ndx < l ==> chunks + Chunks(xs[ndx..], n) == Chunks(xs, n)
      invariant ndx >= l ==> chunks == Chunks(xs, n)
    {
      var end := if ndx + n < l then ndx + n else l;
      var rest := xs[ndx..];
      if |rest| <= n {
        assert xs[ndx..end] == rest;
      } else {
        assert xs[ndx..end] == rest[..n];
        assert xs[end..] == rest[n..];
      }
      chunks := chunks + [xs[ndx..end]];
      ndx := ndx + n;
    }
    if l == 0 {
      assert Chunks(xs, n) == [];
    }
  }

  /** The slices laid end to end give back the list; every slice but the
      last has exactly `n` elements and the last has between 1 and `n`. */
  lemma {:induction false} ChunksSpec<T>(xs: seq<T>, n: int)
    requires n > 0
    ensures Concat(Chunks(xs, n)) == xs
    ensures forall k :: 0 <= k < |Chunks(xs, n)| - 1 ==> |Chunks(xs, n)[k]| == n
    ensures |Chunks(xs, n)| > 0 ==> 0 < |Chunks(xs, n)[|Chunks(xs, n)| - 1]| <= n
    ensures xs == [] <==> Chunks(xs, n) == []
    decreases |xs|
  {
    if xs != [] && |xs| > n {
      var rest := Chunks(xs[n..], n);
      ChunksSpec(xs[n..], n);
      var c := Chunks(xs, n);
      assert c == [xs[..n]] + rest;
      assert c[1..] == rest;
      assert xs == xs[..n] + xs[n..];
      forall k | 0 <= k < |c| - 1
        ensures |c[k]| == n
      {
        if k > 0 {
          assert c[k] == rest[k - 1];
        }
      }
    } else if xs != [] {
      assert Chunks(xs, n)[1..] == [];
    }
  }

  /** `batch` yields exactly `number_batches` slices. */
  lemma {:induction false} ChunksCount<T>(xs: seq<T>, n: int)
    requires n > 0
    ensures |Chunks(xs, n)| == NumberBatches(|xs|, n)
    decreases |xs|
  {
    if xs == [] {
    } else if |xs| <= n {
      NumberBatchesUnique(|xs|, n, 1);
    } else {
      ChunksCount(xs[n..], n);
      var k := |Chunks(xs[n..], n)|;
      assert k * n >= |xs| - n && (k - 1) * n < |xs| - n;
      NumberBatchesUnique(|xs|, n, k + 1);
    }
  }

  // ---------------------------------------------------------------------
  // remap
  // ---------------------------------------------------------------------

  /** RXNMapper's `get_attention_guided_atom_maps`: `None` when the call
      raises, otherwise one entry per result holding its "mapped_rxn"
      value, or `None` when the result has no such key. */
  type Mapper = seq<string> -> Option<seq<Option<string>>>

  /** The placeholder a reaction that fails on its own is mapped to. */
  const FailedMapping := ">>"

  /** Every entry has its "mapped_rxn" value. */
  predicate AllMapped(entries: seq<Option<string>>)
  {
    forall k :: 0 <= k < |entries| ==> entries[k].Some?
  }

  /** `[x["mapped_rxn"] for x in result]`. */
  function MappedValues(entries: seq<Option<string>>): (r: seq<string>)
    requires AllMapped(entries)
    ensures |r| == |entries| && forall k :: 0 <= k < |r| ==> entries[k] == Some(r[k])
  {
    if entries == [] then [] else [entries[0].value] + MappedValues(entries[1..])
  }

  /** Whether the batched call succeeds, its list comprehension included. */
  predicate BatchMapped(mapper: Mapper, chunk: seq<string>)
  {
    mapper(chunk).Some? && AllMapped(mapper(chunk).value)
  }

  /** One reaction mapped on its own: ">>" when the call raises; `None`
      when the `result[0]["mapped_rxn"]` outside the `try` raises. */
  function MapAlone(mapper: Mapper, rxn: string): Option<string>
  {
    match mapper([rxn])
    case None => Some(FailedMapping)
    case Some(entries) => if |entries| == 0 then None else entries[0]
  }

  /** `acc` followed by the outcome of the rest (`None` propagates). */
  function Prepend(acc: seq<string>, rest: Option<seq<string>>): Option<seq<string>>
  {
    match rest
    case None => None
    case Some(r) => Some(acc + r)
  }

  /** The fallback loop: each reaction of the chunk mapped on its own. */
  function MapEach(mapper: Mapper, chunk: seq<string>): Option<seq<string>>
  {
    if chunk == [] then Some([])
    else match MapAlone(mapper, chunk[0])
      case None => None
      case Some(m) => Prepend([m], MapEach(mapper, chunk[1..]))
  }

  /** What one chunk adds to `results`. */
  function MapChunk(mapper: Mapper, chunk: seq<string>): Option<seq<string>>
  {
    if BatchMapped(mapper, chunk) then Some(MappedValues(mapper(chunk).value))
    else MapEach(mapper, chunk)
  }

  /** What the chunks add to `results`, in order. */
  function MapChunks(mapper: Mapper, chunks: seq<seq<string>>): Option<seq<string>>
  {
    if chunks == [] then Some([])
    else match MapChunk(mapper, chunks[0])
      case None => None
      case Some(r) => Prepend(r, MapChunks(mapper, chunks[1..]))
  }

  /** The result of `remap(rxns)`; `None` when an exception escapes it. */
  function RemapResult(mapper: Mapper, rxns: seq<string>): Option<seq<string>>
  {
    MapChunks(mapper, Chunks(rxns, BatchSize))
  }

  lemma PrependNothing(rest: Option<seq<string>>)
    ensures Prepend([], rest) == rest
  {
    if rest.Some? {
      assert [] + rest.value == rest.value;
    }
  }

  lemma PrependAssoc(a: seq<string>, b: seq<string>, rest: Option<seq<string>>)
    ensures Prepend(a, Prepend(b, rest)) == Prepend(a + b, rest)
  {
    if rest.Some? {
      assert a + (b + rest.value) == (a + b) + rest.value;
    }
  }

  /** The inner loop of `remap`, run when a batch fails as a whole: each
      reaction of the chunk is mapped on its own. */
  method MapEachReaction(mapper: Mapper, chunk: seq<string>) returns (mapped: Option<seq<string>>)
    ensures mapped == MapEach(mapper, chunk)
  {
    var acc: seq<string> := [];
    var j := 0;
    PrependNothing(MapEach(mapper, chunk));
    while j < |chunk|
      invariant 0 <= j <= |chunk|
      invariant MapEach(mapper, chunk) == Prepend(acc, MapEach(mapper, chunk[j..]))
    {
      assert chunk[j..][0] == chunk[j] && chunk[j..][1..] == chunk[j + 1..];
      var one := mapper([chunk[j]]);
      var result: string;
      if one.None? {
        result := FailedMapping;
      } else if |one.value| == 0 || one.value[0].None? {
        return None;
      } else {
        result := one.value[0].value;
      }
      PrependAssoc(acc, [result], MapEach(mapper, chunk[j + 1..]));
      acc := acc + [result];
      j := j + 1;
    }
    assert chunk[j..] == [];
    assert acc + [] == acc;
    return Some(acc);
  }

  /** The body of the loop over the batches of `remap`: the batch mapped
      in one call, or reaction by reaction when that call raises. */
  method MapChunkReactions(mapper: Mapper, chunk: seq<string>) returns (added: Option<seq<string>>)
    ensures added == MapChunk(mapper, chunk)
  {
    var result := mapper(chunk);
    if result.Some? && AllMapped(result.value) {
      added := Some(MappedValues(result.value));
    } else {
      added := MapEachReaction(mapper, chunk);
    }
  }

  /** `remap(rxns)`: the reactions in batches of 32, each batch mapped in
      one call or, when that raises, reaction by reaction. */
  method Remap(mapper: Mapper, rxns: seq<string>) returns (results: Option<seq<string>>)
    ensures results == RemapResult(mapper, rxns)
  {
    var chunks := Batch(rxns, BatchSize);
    var acc: seq<string> := [];
    var i := 0;
    PrependNothing(MapChunks(mapper, chunks));
    while i < |chunks|
      invariant 0 <= i <= |chunks|
      invariant MapChunks(mapper, chunks) == Prepend(acc, MapChunks(mapper, chunks[i..]))
    {
      var chunk := chunks[i];
      assert chunks[i..][0] == chunk && chunks[i..][1..] == chunks[i + 1..];
      var added := MapChunkReactions(mapper, chunk);
      if added.None? {
        return None;
      }
      PrependAssoc(acc, added.value, MapChunks(mapper, chunks[i + 1..]));
      acc := acc + added.value;
      i := i + 1;
    }
    assert chunks[i..] == [];
    assert acc + [] == acc;
    return Some(acc);
  }

  /** Mapping reaction by reaction gives one string per reaction, in
      order: ">>" for a reaction whose own call raises, its mapping
      otherwise; it fails exactly when one reaction's result is empty or
      lacks "mapped_rxn". */
  lemma {:induction false} MapEachSpec(mapper: Mapper, chunk: seq<string>)
    ensures MapEach(mapper, chunk).None? <==> exists k :: 0 <= k < |chunk| && MapAlone(mapper, chunk[k]).None?
    ensures MapEach(mapper, chunk).Some? ==>
              |MapEach(mapper, chunk).value| == |chunk| &&
              forall k :: 0 <= k < |chunk| ==> Some(MapEach(mapper, chunk).value[k]) == MapAlone(mapper, chunk[k])
  {
    if chunk != [] {
      MapEachSpec(mapper, chunk[1..]);
      var rest := MapEach(mapper, chunk[1..]);
      if MapAlone(mapper, chunk[0]).Some? && rest.Some? {
        var r := MapEach(mapper, chunk).value;
        assert r == [MapAlone(mapper, chunk[0]).value] + rest.value;
        forall k | 0 <= k < |chunk|
          ensures Some(r[k]) == MapAlone(mapper, chunk[k])
        {
          if k > 0 {
            assert r[k] == rest.value[k - 1] && chunk[k] == chunk[1..][k - 1];
          }
        }
      }
      if rest.None? {
        var k :| 0 <= k < |chunk[1..]| && MapAlone(mapper, chunk[1..][k]).None?;
        assert chunk[k + 1] == chunk[1..][k];
      }
      if MapAlone(mapper, chunk[0]).Some? && rest.Some? {
        forall k | 0 <= k < |chunk|
          ensures MapAlone(mapper, chunk[k]).Some?
        {
          if k > 0 {
            assert chunk[k] == chunk[1..][k - 1];
          }
        }
      }
    }
  }

  /** A mapper that answers every successful call with one entry per
      input reaction. */
  ghost predicate OnePerInput(mapper: Mapper)
  {
    forall xs :: mapper(xs).Some? ==> |mapper(xs).value| == |xs|
  }

  /** Given such a mapper, each chunk adds exactly one string per reaction. */
  lemma MapChunkLength(mapper: Mapper, chunk: seq<string>)
    requires OnePerInput(mapper)
    ensures MapChunk(mapper, chunk).Some? ==> |MapChunk(mapper, chunk).value| == |chunk|
  {
    MapEachSpec(mapper, chunk);
  }

  lemma {:induction false} MapChunksLength(mapper: Mapper, chunks: seq<seq<string>>)
    requires OnePerInput(mapper)
    ensures MapChunks(mapper, chunks).Some? ==> |MapChunks(mapper, chunks).value| == |Concat(chunks)|
  {
    if chunks != [] {
      MapChunkLength(mapper, chunks[0]);
      MapChunksLength(mapper, chunks[1..]);
    }
  }

  /** `remap` returns exactly one string per input reaction, provided
      every successful mapper call returns one result per input. */
  lemma RemapLength(mapper: Mapper, rxns: seq<string>)
    requires OnePerInput(mapper)
    ensures RemapResult(mapper, rxns).Some? ==> |RemapResult(mapper, rxns).value| == |rxns|
  {
    MapChunksLength(mapper, Chunks(rxns, BatchSize));
    ChunksSpec(rxns, BatchSize);
  }

  /** `remap` raises exactly when some batch fails as a whole and one of
      its reactions then fails outside the inner `try`. */
  lemma {:induction false} MapChunksFails(mapper: Mapper, chunks: seq<seq<string>>)
    ensures MapChunks(mapper, chunks).None? <==>
              exists c, k :: 0 <= c < |chunks| && 0 <= k < |chunks[c]| &&
                             !BatchMapped(mapper, chunks[c]) && MapAlone(mapper, chunks[c][k]).None?
  {
    if chunks != [] {
      MapChunksFails(mapper, chunks[1..]);
      MapEachSpec(mapper, chunks[0]);
      if MapChunks(mapper, chunks[1..]).None? {
        var c, k :| 0 <= c < |chunks[1..]| && 0 <= k < |chunks[1..][c]| &&
                    !BatchMapped(mapper, chunks[1..][c]) && MapAlone(mapper, chunks[1..][c][k]).None?;
        assert chunks[c + 1] == chunks[1..][c];
      }
      if exists c, k :: 0 <= c < |chunks| && 0 <= k < |chunks[c]| &&
                        !BatchMapped(mapper, chunks[c]) && MapAlone(mapper, chunks[c][k]).None? {
        var c, k :| 0 <= c < |chunks| && 0 <= k < |chunks[c]| &&
                    !BatchMapped(mapper, chunks[c]) && MapAlone(mapper, chunks[c][k]).None?;
        if c > 0 {
          assert chunks[1..][c - 1] == chunks[c];
        }
      }
    }
  }

  // ---------------------------------------------------------------------
  // remove_us_patents
  // ---------------------------------------------------------------------

  /** `patent[:2]`, the "region" of a patent number. */
  function Region(patent: string): string
  {
    Take(patent, 2)
  }

  /** The region is "US" exactly when the patent number starts with "US". */
  lemma RegionUs(patent: string)
    ensures Region(patent) == "US" <==> "US" <= patent
  {
  }

  /** The row mask `df["region"] != "US"`. */
  function NotUs<R>(patent: R -> string): R -> bool
  {
    (r: R) => Region(patent(r)) != "US"
  }

  /** A Pistachio table whose "region" column `remove_us_patents` adds in
      place: `rows` holds the other columns, `region` the helper column
      once it exists. */
  class PatentTable<R> {
    var rows: seq<R>
    var region: Option<seq<string>>

    constructor (rows: seq<R>)
      ensures this.rows == rows && region == None
    {
      this.rows := rows;
      region := None;
    }
  }

  /** `remove_us_patents(df)`: adds the "region" column to `df` itself and
      returns the rows of a region other than "US", without that column. */
  method RemoveUsPatents<R(==)>(df: PatentTable<R>, patent: R -> string) returns (noUs: seq<R>)
    modifies df
    ensures df.rows == old(df.rows)
    ensures df.region == Some(Project(df.rows, (r: R) => Region(patent(r))))
    ensures noUs == Filter(df.rows, NotUs(patent))
  {
    df.region := Some(Project(df.rows, (r: R) => Region(patent(r))));
    noUs := Filter(df.rows, NotUs(patent));
  }

  /** The kept rows are in their original order, and are exactly the rows
      whose patent number does not start with "US". */
  lemma NonUsRows<R>(rows: seq<R>, patent: R -> string)
    ensures IsSubseq(Filter(rows, NotUs(patent)), rows)
    ensures forall r :: r in Filter(rows, NotUs(patent)) <==> r in rows && !("US" <= patent(r))
  {
    FilterSubseq(rows, NotUs(patent));
    forall r | r in rows
      ensures Region(patent(r)) == "US" <==> "US" <= patent(r)
    {
      RegionUs(patent(r));
    }
  }
}

/** The template-frequency filter of preprocessing/3_template_filtering.py:
    the check that the table has a template column, the group filter that
    keeps the rows whose template occurs more than a threshold number of
    times, and `filter_df`, which chains the two. The row type is a
    parameter; `template` reads a row's template cell, `None` for a
    missing value (which pandas leaves out of every group). */
module TemplateFiltering {
  import opened Wrappers
  import opened Seqs

  /** How many rows have template `t`. */
  function GroupSize<R>(rows: seq<R>, template: R -> Option<string>, t: string): nat
  {
    if rows == [] then 0
    else (if template(rows[0]) == Some(t) then 1 else 0) + GroupSize(rows[1..], template, t)
  }

  /** Whether a row's group in `all` is larger than `threshold`. */
  predicate InLargeGroup<R>(all: seq<R>, template: R -> Option<string>, threshold: int, row: R)
  {
    template(row).Some? && GroupSize(all, template, template(row).value) > threshold
  }

  /** The rows of `xs` whose group in `all` is larger than `threshold`, in order. */
  function KeepLarge<R>(xs: seq<R>, all: seq<R>, template: R -> Option<string>, threshold: int): seq<R>
  {
    if xs == [] then []
    else if InLargeGroup(all, template, threshold, xs[0]) then [xs[0]] + KeepLarge(xs[1..], all, template, threshold)
    else KeepLarge(xs[1..], all, template, threshold)
  }

  /** `filter_templates`: `df.groupby('template').filter(lambda x: len(x) > threshold)`. */
  function FilterTemplates<R>(rows: seq<R>, template: R -> Option<string>, threshold: int): seq<R>
  {
    KeepLarge(rows, rows, template, threshold)
  }

  /** The kept rows form a subsequence of the input, and a row is among
      them exactly when its group is larger than the threshold. */
  lemma {:induction false} KeepLargeSpec<R>(xs: seq<R>, all: seq<R>, template: R -> Option<string>, threshold: int)
    ensures IsSubseq(KeepLarge(xs, all, template, threshold), xs)
    ensures forall r :: r in KeepLarge(xs, all, template, threshold) <==> r in xs && InLargeGroup(all, template, threshold, r)
  {
    if xs != [] {
      KeepLargeSpec(xs[1..], all, template, threshold);
      var rest := KeepLarge(xs[1..], all, template, threshold);
      if InLargeGroup(all, template, threshold, xs[0]) {
        assert ([xs[0]] + rest)[1..] == rest;
      } else {
        SubseqDropSecond(rest, xs);
      }
      assert xs == [xs[0]] + xs[1..];
    } else {
      SubseqRefl(xs);
    }
  }

  /** Groups are kept or dropped whole: in the output a kept template has
      its full group and a dropped one has none. */
  lemma {:induction false} KeepLargeGroupSize<R>(xs: seq<R>, all: seq<R>, template: R -> Option<string>, threshold: int, t: string)
    ensures GroupSize(KeepLarge(xs, all, template, threshold), template, t) ==
            if GroupSize(all, template, t) > threshold then GroupSize(xs, template, t) else 0
  {
    if xs != [] {
      KeepLargeGroupSize(xs[1..], all, template, threshold, t);
      var rest := KeepLarge(xs[1..], all, template, threshold);
      if InLargeGroup(all, template, threshold, xs[0]) {
        assert ([xs[0]] + rest)[1..] == rest;
      }
    }
  }

  /** Rows all in large groups are all kept. */
  lemma {:induction false} KeepLargeAll<R>(xs: seq<R>, all: seq<R>, template: R -> Option<string>, threshold: int)
    requires forall i :: 0 <= i < |xs| ==> InLargeGroup(all, template, threshold, xs[i])
    ensures KeepLarge(xs, all, template, threshold) == xs
  {
    if xs != [] {
      KeepLargeAll(xs[1..], all, template, threshold);
    }
  }

  /** Rows none of which is in a large group are all dropped. */
  lemma {:induction false} KeepLargeNone<R>(xs: seq<R>, all: seq<R>, template: R -> Option<string>, threshold: int)
    requires forall i :: 0 <= i < |xs| ==> !InLargeGroup(all, template, threshold, xs[i])
    ensures KeepLarge(xs, all, template, threshold) == []
  {
    if xs != [] {
      KeepLargeNone(xs[1..], all, template, threshold);
    }
  }

  /** A row is kept exactly when its template occurs more than
      `threshold` times in the input; the output is a subsequence of the
      input, and it keeps each template's whole group or none of it. */
  lemma FilterTemplatesSpec<R>(rows: seq<R>, template: R -> Option<string>, threshold: int)
    ensures IsSubseq(FilterTemplates(rows, template, threshold), rows)
    ensures forall r :: r in FilterTemplates(rows, template, threshold) <==>
              r in rows && template(r).Some? && GroupSize(rows, template, template(r).value) > threshold
    ensures forall t :: GroupSize(FilterTemplates(rows, template, threshold), template, t) ==
              if GroupSize(rows, template, t) > threshold then GroupSize(rows, template, t) else 0
  {
    KeepLargeSpec(rows, rows, template, threshold);
    forall t
      ensures GroupSize(FilterTemplates(rows, template, threshold), template, t) ==
              if GroupSize(rows, template, t) > threshold then GroupSize(rows, template, t) else 0
    {
      KeepLargeGroupSize(rows, rows, template, threshold, t);
    }
  }

  /** Filtering twice gives the same rows as filtering once. */
  lemma FilterTemplatesIdempotent<R>(rows: seq<R>, template: R -> Option<string>, threshold: int)
    ensures FilterTemplates(FilterTemplates(rows, template, threshold), template, threshold) == FilterTemplates(rows, template, threshold)
  {
    var once := FilterTemplates(rows, template, threshold);
    KeepLargeSpec(rows, rows, template, threshold);
    forall i | 0 <= i < |once|
      ensures InLargeGroup(once, template, threshold, once[i])
    {
      assert once[i] in once;
      assert InLargeGroup(rows, template, threshold, once[i]);
      KeepLargeGroupSize(rows, rows, template, threshold, template(once[i]).value);
    }
    KeepLargeAll(once, once, template, threshold);
  }

  /** A higher threshold keeps a subsequence of what a lower one keeps. */
  lemma {:induction false} KeepLargeMonotone<R>(xs: seq<R>, all: seq<R>, template: R -> Option<string>, low: int, high: int)
    requires low <= high
    ensures IsSubseq(KeepLarge(xs, all, template, high), KeepLarge(xs, all, template, low))
  {
    if xs == [] {
      SubseqRefl(xs);
    } else {
      KeepLargeMonotone(xs[1..], all, template, low, high);
      var hi, lo := KeepLarge(xs[1..], all, template, high), KeepLarge(xs[1..], all, template, low);
      if InLargeGroup(all, template, high, xs[0]) {
        assert ([xs[0]] + hi)[1..] == hi;
        assert ([xs[0]] + lo)[1..] == lo;
      } else if InLargeGroup(all, template, low, xs[0]) {
        SubseqDropSecond(hi, [xs[0]] + lo);
        assert ([xs[0]] + lo)[1..] == lo;
      }
    }
  }

  lemma FilterTemplatesMonotone<R>(rows: seq<R>, template: R -> Option<string>, low: int, high: int)
    requires low <= high
    ensures IsSubseq(FilterTemplates(rows, template, high), FilterTemplates(rows, template, low))
  {
    KeepLargeMonotone(rows, rows, template, low, high);
  }

  /** The result of reading a table. */
  datatype Loaded<T> = Loaded(value: T) | NoTemplateColumn

  /** `load_df`: the rows, or the error raised when the table has no
      "template" column. */
  function LoadDf<R>(columns: seq<string>, rows: seq<R>): (r: Loaded<seq<R>>)
    ensures r.NoTemplateColumn? <==> "template" !in columns
    ensures r.Loaded? ==> r.value == rows
  {
    if "template" !in columns then NoTemplateColumn else Loaded(rows)
  }

  /** The default threshold of `filter_templates`. */
  const DefaultThreshold := 5

  /** `filter_df` as written: the table filtered with the default
      threshold, whatever `threshold` it is given. */
  function FilterDf<R>(columns: seq<string>, rows: seq<R>, template: R -> Option<string>, threshold: int): Loaded<seq<R>>
  {
    match LoadDf(columns, rows)
    case NoTemplateColumn => NoTemplateColumn
    case Loaded(df) => Loaded(FilterTemplates(df, template, DefaultThreshold))
  }

  /** `filter_df` as evidently intended: the given threshold is passed on. */
  function FilterDfIntended<R>(columns: seq<string>, rows: seq<R>, template: R -> Option<string>, threshold: int): Loaded<seq<R>>
  {
    match LoadDf(columns, rows)
    case NoTemplateColumn => NoTemplateColumn
    case Loaded(df) => Loaded(FilterTemplates(df, template, threshold))
  }

  /** As written, the threshold argument makes no difference. */
  lemma FilterDfIgnoresThreshold<R>(columns: seq<string>, rows: seq<R>, template: R -> Option<string>, threshold: int)
    ensures FilterDf(columns, rows, template, threshold) == FilterDf(columns, rows, template, DefaultThreshold)
    ensures FilterDf(columns, rows, template, threshold) == FilterDfIntended(columns, rows, template, DefaultThreshold)
  {
  }

  /** A template seen six times survives the Pistachio call with
      threshold 20 as written, but not as intended. */
  lemma PistachioThresholdIgnored()
    ensures var rows := ["T", "T", "T", "T", "T", "T"];
            var template := (r: string) => Some(r);
            && FilterDf(["template"], rows, template, 20) == Loaded(rows)
            && FilterDfIntended(["template"], rows, template, 20) == Loaded([])
  {
    var rows := ["T", "T", "T", "T", "T", "T"];
    var template := (r: string) => Some(r);
    assert GroupSize(rows, template, "T") == 6 by {
      assert rows[1..] == ["T", "T", "T", "T", "T"];
      assert rows[1..][1..] == ["T", "T", "T", "T"];
      assert rows[1..][1..][1..] == ["T", "T", "T"];
      assert rows[1..][1..][1..][1..] == ["T", "T"];
      assert rows[1..][1..][1..][1..][1..] == ["T"];
    }
    KeepLargeAll(rows, rows, template, DefaultThreshold);
    KeepLargeNone(rows, rows, template, 20);
  }

  /** As intended, the kept rows are exactly those whose template occurs
      more than `threshold` times, for any threshold; an absent template
      column is reported as an error. */
  lemma FilterDfIntendedSpec<R>(columns: seq<string>, rows: seq<R>, template: R -> Option<string>, threshold: int)
    ensures FilterDfIntended(columns, rows, template, threshold).NoTemplateColumn? <==> "template" !in columns
    ensures FilterDfIntended(columns, rows, template, threshold).Loaded? ==>
              forall r :: r in FilterDfIntended(columns, rows, template, threshold).value <==>
                r in rows && template(r).Some? && GroupSize(rows, template, template(r).value) > threshold
  {
    FilterTemplatesSpec(rows, template, threshold);
  }
}

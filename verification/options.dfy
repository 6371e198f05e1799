/** Functional options of package flat (options.go): a record holding the
    delimiter and the key fold, built by running option functions in order
    over the defaults. */
module Options {
  import opened Outcomes

  /** Delimiter used when no option sets one. */
  const DefaultDelimiter: string := "."

  /** The options record. `fold` rewrites keys; it is any total function. */
  datatype Options = Options(delimiter: string, fold: string -> string)

  /** One argument of the variadic `opts ...func(*Options)`; Go allows nil. */
  type OptionFn = Option<Options -> Options>

  function Identity(s: string): string {
    s
  }

  /** Runs the option functions left to right, skipping nil ones. */
  function ApplyAll(o: Options, opts: seq<OptionFn>): Options
    decreases |opts|
  {
    if |opts| == 0 then o
    else
      var last := opts[|opts| - 1];
      var before := ApplyAll(o, opts[..|opts| - 1]);
      if last.Some? then last.value(before) else before
  }

  /** DefaultOptions: the defaults (delimiter ".", identity fold) with every
      non-nil option function applied in order. */
  function DefaultOptions(opts: seq<OptionFn>): (o: Options)
    ensures opts == [] ==> o.delimiter == DefaultDelimiter && forall s :: o.fold(s) == s
  {
    ApplyAll(Options(DefaultDelimiter, Identity), opts)
  }

  /** WithDelimiter: sets the delimiter, leaves the fold, validates nothing. */
  function WithDelimiter(d: string): (f: Options -> Options)
    ensures forall o :: f(o).delimiter == d && f(o).fold == o.fold
  {
    (o: Options) => o.(delimiter := d)
  }

  /** WithFold: sets the fold, leaves the delimiter. */
  function WithFold(g: string -> string): (f: Options -> Options)
    ensures forall o :: f(o).fold == g && f(o).delimiter == o.delimiter
  {
    (o: Options) => o.(fold := g)
  }

  /** WithOptions: replaces the whole record with `*p`, or does nothing when
      `p` is nil. */
  function WithOptions(p: Option<Options>): (f: Options -> Options)
    ensures p.None? ==> forall o :: f(o) == o
    ensures p.Some? ==> forall o :: f(o) == p.value
  {
    (o: Options) => if p.Some? then p.value else o
  }

  /** Option lists compose: the options of `a + b` are those of `a` with the
      functions of `b` run afterwards. */
  lemma {:induction false} ApplyAllAppend(o: Options, a: seq<OptionFn>, b: seq<OptionFn>)
    ensures ApplyAll(o, a + b) == ApplyAll(ApplyAll(o, a), b)
    decreases |b|
  {
    if |b| > 0 {
      assert (a + b)[..|a + b| - 1] == a + b[..|b| - 1];
      ApplyAllAppend(o, a, b[..|b| - 1]);
    } else {
      assert a + b == a;
    }
  }

  /** The last option that writes the delimiter wins, and setting the
      delimiter keeps whatever fold the earlier options chose. */
  lemma LastDelimiterWins(opts: seq<OptionFn>, d: string)
    ensures DefaultOptions(opts + [Some(WithDelimiter(d))]).delimiter == d
    ensures DefaultOptions(opts + [Some(WithDelimiter(d))]).fold == DefaultOptions(opts).fold
  {
    assert (opts + [Some(WithDelimiter(d))])[..|opts|] == opts;
  }

  /** The last option that writes the fold wins; the delimiter is kept. */
  lemma LastFoldWins(opts: seq<OptionFn>, g: string -> string)
    ensures DefaultOptions(opts + [Some(WithFold(g))]).fold == g
    ensures DefaultOptions(opts + [Some(WithFold(g))]).delimiter == DefaultOptions(opts).delimiter
  {
    assert (opts + [Some(WithFold(g))])[..|opts|] == opts;
  }

  /** Nil option functions are skipped wherever they appear. */
  lemma {:induction false} NilOptionsSkipped(a: seq<OptionFn>, b: seq<OptionFn>)
    ensures DefaultOptions(a + [None] + b) == DefaultOptions(a + b)
  {
    var o := Options(DefaultDelimiter, Identity);
    ApplyAllAppend(o, a + [None], b);
    ApplyAllAppend(o, a, b);
    assert (a + [None])[..|a|] == a;
  }

  /** No validation: an empty delimiter requested by the caller is what the
      encoder and decoder get, although both doc comments (map.go:10-11,
      unmap.go:11-12) promise the default "." in that case. */
  lemma EmptyDelimiterKept(opts: seq<OptionFn>)
    ensures DefaultOptions(opts + [Some(WithDelimiter(""))]).delimiter == ""
  {
    LastDelimiterWins(opts, "");
  }
}

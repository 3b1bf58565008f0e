/** Column-name helpers: collapsing multi-level column labels into flat names
    and inflating flat names back into (top, sub) pairs. */
module ColFuncs {
  import opened Results
  import opened PyText

  /** Separator `collapse_cols` uses unless told otherwise. */
  const DefaultSep := "_"

  /** A two-level column label `(top, sub)`. */
  type Pair = (string, string)

  /** `collapse_cols(dataframe, sep)`: each column's labels joined by `sep`, with
      the whitespace at both ends of the joined name removed. Nothing makes the
      names unique (see `CollapseNotInjective`). */
  function Collapse(cols: seq<seq<string>>, sep: string): (names: seq<string>)
    ensures |names| == |cols|
    ensures forall i :: 0 <= i < |cols| ==> names[i] == Strip(Join(sep, cols[i]))
    ensures forall i :: 0 <= i < |names| ==> NoEdgeSpace(names[i])
  {
    if cols == [] then []
    else [Strip(Join(sep, cols[0]))] + Collapse(cols[1..], sep)
  }

  /** The `(top, sub)` pair `inflate_cols` reads from one name: the first two
      tokens of `name.split()`, or `IndexError` when there are fewer than two. */
  function NamePair(name: string): (r: Result<Pair>)
    ensures r.Ok? <==> |Split(name)| >= 2
    ensures r.Err? ==> r.error == IndexError
  {
    var tokens := Split(name);
    if |tokens| < 2 then Err(IndexError) else Ok((tokens[0], tokens[1]))
  }

  /** Message of the `TypeError` pandas' `MultiIndex.from_tuples` raises when
      given no tuples and no level names. */
  const NoTuplesMessage := "Cannot infer number of levels from empty list"

  /** The loop of `inflate_cols`: one pair per name, in order; the first name
      without two tokens raises `IndexError` and no pairs are produced. */
  function InflatePairs(names: seq<string>): (r: Result<seq<Pair>>)
    ensures r.Ok? <==> forall i :: 0 <= i < |names| ==> NamePair(names[i]).Ok?
    ensures r.Err? ==> r.error == IndexError
    ensures r.Ok? ==> |r.value| == |names|
    ensures r.Ok? ==> forall i :: 0 <= i < |names| ==> r.value[i] == NamePair(names[i]).value
  {
    if names == [] then Ok([])
    else
      match NamePair(names[0])
      case Err(e) => Err(e)
      case Ok(p) =>
        match InflatePairs(names[1..])
        case Err(e) => Err(e)
        case Ok(rest) =>
          var r := [p] + rest;
          assert forall i :: 1 <= i < |names| ==> r[i] == rest[i - 1] && names[1..][i - 1] == names[i];
          Ok(r)
  }

  /** `inflate_cols(dataframe)`: the pairs of `InflatePairs`, handed to
      `MultiIndex.from_tuples`, which refuses an empty list of pairs. */
  function Inflate(names: seq<string>): (r: Result<seq<Pair>>)
    ensures r.Ok? <==> names != [] && forall i :: 0 <= i < |names| ==> NamePair(names[i]).Ok?
    ensures r.Err? ==> r.error == if names == [] then TypeError(NoTuplesMessage) else IndexError
    ensures r.Ok? ==> |r.value| == |names|
    ensures r.Ok? ==> forall i :: 0 <= i < |names| ==> r.value[i] == NamePair(names[i]).value
  {
    if names == [] then Err(TypeError(NoTuplesMessage)) else InflatePairs(names)
  }

  /** The pairs as two-level column labels, the shape `Collapse` consumes;
      `TopTwo` reads the pairs back. */
  function PairLabels(ps: seq<Pair>): (cols: seq<seq<string>>)
    ensures |cols| == |ps|
    ensures forall i :: 0 <= i < |cols| ==> |cols[i]| == 2
    ensures TopTwo(cols) == ps
  {
    seq(|ps|, i requires 0 <= i < |ps| => [ps[i].0, ps[i].1])
  }

  /** The first two labels of each column. */
  function TopTwo(cols: seq<seq<string>>): (ps: seq<Pair>)
    requires forall i :: 0 <= i < |cols| ==> |cols[i]| >= 2
    ensures |ps| == |cols|
    ensures forall i :: 0 <= i < |cols| ==> ps[i] == (cols[i][0], cols[i][1])
  {
    seq(|cols|, i requires 0 <= i < |cols| => (cols[i][0], cols[i][1]))
  }

  // ---------------------------------------------------------------------------
  // Round trips
  // ---------------------------------------------------------------------------

  /** A column whose labels are all whitespace-free and non-empty, collapsed
      with a whitespace separator, splits back into exactly its labels. */
  lemma SplitCollapsedColumn(col: seq<string>, sep: string)
    requires sep != [] && AllSpace(sep)
    requires forall k :: 0 <= k < |col| ==> IsToken(col[k])
    ensures Split(Strip(Join(sep, col))) == col
  {
    JoinTokensNoEdgeSpace(sep, col);
    StripKeeps(Join(sep, col));
    SplitJoin(sep, col);
  }

  /** Inflating names collapsed with a whitespace separator gives back the first
      two labels of every column, in order, whatever the number of levels, as
      long as every label is non-empty and free of whitespace and there is at
      least one column; with no columns at all `TypeError` is raised. */
  lemma InflateCollapse(cols: seq<seq<string>>, sep: string)
    requires sep != [] && AllSpace(sep)
    requires forall i :: 0 <= i < |cols| ==> |cols[i]| >= 2
    requires forall i, k :: 0 <= i < |cols| && 0 <= k < |cols[i]| ==> IsToken(cols[i][k])
    ensures cols != [] ==> Inflate(Collapse(cols, sep)) == Ok(TopTwo(cols))
    ensures cols == [] ==> Inflate(Collapse(cols, sep)) == Err(TypeError(NoTuplesMessage))
  {
    var names := Collapse(cols, sep);
    forall i | 0 <= i < |cols|
      ensures Split(names[i]) == cols[i]
    {
      SplitCollapsedColumn(cols[i], sep);
    }
    if cols != [] {
      var r := Inflate(names);
      assert r.Ok?;
      assert r.value == TopTwo(cols);
    }
  }

  /** Two-level columns are exactly the pair lists of their first two labels. */
  lemma PairLabelsTopTwo(cols: seq<seq<string>>)
    requires forall i :: 0 <= i < |cols| ==> |cols[i]| == 2
    ensures PairLabels(TopTwo(cols)) == cols
  {
    var back := PairLabels(TopTwo(cols));
    forall i | 0 <= i < |cols|
      ensures back[i] == cols[i]
    {
      assert cols[i] == [cols[i][0], cols[i][1]];
    }
  }

  /** With a single space and two-level labels the round trip is exact: the
      collapsed names inflate to the original columns, unless there are none. */
  lemma InflateCollapseTwoLevels(cols: seq<seq<string>>)
    requires forall i :: 0 <= i < |cols| ==> |cols[i]| == 2
    requires forall i, k :: 0 <= i < |cols| && 0 <= k < |cols[i]| ==> IsToken(cols[i][k])
    ensures Inflate(Collapse(cols, " ")).Ok? <==> cols != []
    ensures cols != [] ==> PairLabels(Inflate(Collapse(cols, " ")).value) == cols
  {
    assert IsSpace(" "[0]);
    InflateCollapse(cols, " ");
    PairLabelsTopTwo(cols);
  }

  /** A name written as its two tokens around one space survives joining those
      tokens again and stripping. */
  lemma RejoinTwoTokens(name: string)
    requires |Split(name)| == 2
    requires name == Join(" ", Split(name))
    ensures Strip(Join(" ", [Split(name)[0], Split(name)[1]])) == name
  {
    var toks := Split(name);
    assert [toks[0], toks[1]] == toks;
    JoinTokensNoEdgeSpace(" ", toks);
    StripKeeps(name);
  }

  /** The other direction: a non-empty list of names already written as two
      tokens separated by one space collapses back to itself after inflating. */
  lemma CollapseInflate(names: seq<string>)
    requires forall i :: 0 <= i < |names| ==> |Split(names[i])| == 2
    requires forall i :: 0 <= i < |names| ==> names[i] == Join(" ", Split(names[i]))
    ensures Inflate(names).Ok? <==> names != []
    ensures names != [] ==> Collapse(PairLabels(Inflate(names).value), " ") == names
  {
    if names != [] {
      var ps := Inflate(names).value;
      var cols := PairLabels(ps);
      forall i | 0 <= i < |names|
        ensures Collapse(cols, " ")[i] == names[i]
      {
        assert cols[i] == [Split(names[i])[0], Split(names[i])[1]];
        RejoinTwoTokens(names[i]);
      }
    }
  }

  /** With a whitespace-free separator such as the default `"_"`, a column whose
      labels carry no whitespace collapses to a single token, so inflating the
      collapsed names raises `IndexError`. */
  lemma InflateRejectsCollapsed(cols: seq<seq<string>>, sep: string, i: nat)
    requires NoSpace(sep)
    requires i < |cols|
    requires forall k :: 0 <= k < |cols[i]| ==> NoSpace(cols[i][k])
    ensures Inflate(Collapse(cols, sep)) == Err(IndexError)
  {
    var names := Collapse(cols, sep);
    var j := Join(sep, cols[i]);
    JoinNoSpace(sep, cols[i]);
    assert j == [] || (!IsSpace(j[0]) && !IsSpace(j[|j| - 1]));
    StripKeeps(j);
    assert names[i] == j;
    SplitNoSpace(j);
    assert i < |names| && !NamePair(names[i]).Ok?;
    var r := Inflate(names);
    assert !r.Ok?;
    assert r.error == IndexError;
  }

  // ---------------------------------------------------------------------------
  // Worked examples
  // ---------------------------------------------------------------------------

  /** With the default separator the column `("A","x")` collapses to `A_x`. */
  lemma CollapseDefaultExample()
    ensures Collapse([["A", "x"]], DefaultSep) == ["A_x"]
  {
    assert Join(DefaultSep, ["A", "x"]) == "A_x";
    StripKeeps("A_x");
  }

  /** Two labels with no whitespace at the outer ends collapse to their plain
      concatenation around the separator. */
  lemma CollapsePair(a: string, b: string, sep: string)
    requires a != [] && b != [] && !IsSpace(a[0]) && !IsSpace(b[|b| - 1])
    ensures Collapse([[a, b]], sep) == [a + sep + b]
  {
    var j := a + sep + b;
    assert Join(sep, [a, b]) == j;
    assert j[0] == a[0] && j[|j| - 1] == b[|b| - 1];
    StripKeeps(j);
  }

  /** Distinct columns can collapse to the same name: `(a+sep+b, c)` and
      `(a, b+sep+c)` both become `a+sep+b+sep+c`; with `"_"` this is
      `("A_b","c")` against `("A","b_c")`. */
  lemma CollapseNotInjective(a: string, b: string, c: string, sep: string)
    requires sep != []
    ensures [a + sep + b, c] != [a, b + sep + c]
    ensures Collapse([[a + sep + b, c]], sep) == Collapse([[a, b + sep + c]], sep)
  {
    assert [a + sep + b, c][0] != [a, b + sep + c][0] by {
      assert |a + sep + b| > |a|;
    }
    assert Join(sep, [a + sep + b, c]) == a + sep + b + sep + c;
    assert Join(sep, [a, b + sep + c]) == a + sep + (b + sep + c);
    assert a + sep + (b + sep + c) == a + sep + b + sep + c;
  }

  /** Tokens after the second are dropped: a name of three whitespace-separated
      tokens inflates to the pair of its first two. */
  lemma InflateDropsExtraTokens(a: string, b: string, c: string, sep: string)
    requires IsToken(a) && IsToken(b) && IsToken(c)
    requires sep != [] && AllSpace(sep)
    ensures Inflate([a + sep + b + sep + c]) == Ok([(a, b)])
  {
    var name := a + sep + b + sep + c;
    assert Join(sep, [c]) == c;
    assert Join(sep, [b, c]) == b + sep + c by { assert [b, c][1..] == [c]; }
    assert Join(sep, [a, b, c]) == name by { assert [a, b, c][1..] == [b, c]; }
    SplitJoin(sep, [a, b, c]);
    assert NamePair(name) == Ok((a, b));
    var r := Inflate([name]);
    assert [name][0] == name;
    assert r.Ok?;
    assert |r.value| == 1 && r.value[0] == (a, b);
    assert r.value == [(a, b)];
  }

  /** `inflate_cols` splits on whitespace, not on `"_"`: `"A_x"` is one token. */
  lemma InflateUnderscoreName()
    ensures Inflate(["A_x"]) == Err(IndexError)
  {
    SplitNoSpace("A_x");
  }
}

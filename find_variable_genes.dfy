/**
  The bound-resolution loop of the scanpy "find variable genes" wrapper
  (etienne_scripts/scanpy-find-variable-genes.py, function main).

  The caller supplies three parallel lists: parameter names, high thresholds
  and low thresholds. The loop walks them in lockstep, stopping at the end of
  the shortest list, and fills the four optional bounds handed to the
  highly-variable-gene selection: `min_mean`, `max_mean`, `min_disp` and
  `max_disp`. The name "mean" sets the mean pair, the name "disp" sets the
  dispersion pair, and any other name is skipped with a warning.

  Threshold values are only ever copied, never compared, so their type is the
  type parameter `T`.
*/
module FindVariableGenes {
  import opened Wrappers

  // ---------------------------------------------------------------------
  // Data model
  // ---------------------------------------------------------------------

  /** The two statistics that can be bounded. */
  datatype Param = Mean | Disp

  /** The parameter name the script recognises for each statistic. */
  function NameOf(p: Param): string
  {
    match p
    case Mean => "mean"
    case Disp => "disp"
  }

  /** Recognises a parameter name; `None` is the unsupported-name branch. */
  function Classify(name: string): (r: Option<Param>)
    ensures r.Some? ==> NameOf(r.value) == name
    ensures r.None? <==> (forall p :: name != NameOf(p))
  {
    if name == "mean" then Some(Mean)
    else if name == "disp" then Some(Disp)
    else None
  }

  /** One triple as the loop unpacks it: name first, then high, then low. */
  datatype Entry<T> = Entry(name: string, high: T, low: T)

  /** The four bounds the loop resolves; `None` means "not given". */
  datatype Bounds<T> = Bounds(minMean: Option<T>, maxMean: Option<T>, minDisp: Option<T>, maxDisp: Option<T>)
  {
    /** The (min, max) pair that belongs to statistic `p`. */
    function Range(p: Param): (Option<T>, Option<T>)
    {
      match p
      case Mean => (minMean, maxMean)
      case Disp => (minDisp, maxDisp)
    }
  }

  /** All four bounds unset, as before the loop. */
  function Unset<T>(): Bounds<T>
  {
    Bounds(None, None, None, None)
  }

  function Min3(a: nat, b: nat, c: nat): nat
  {
    if a <= b && a <= c then a else if b <= c then b else c
  }

  // ---------------------------------------------------------------------
  // Specification of the loop
  // ---------------------------------------------------------------------

  /**
    Python's `zip` over three lists: it stops as soon as one of them runs out,
    so it yields exactly the positions below the shortest length.
  */
  function Zip<T>(names: seq<string>, highs: seq<T>, lows: seq<T>): (es: seq<Entry<T>>)
    ensures |es| == Min3(|names|, |highs|, |lows|)
    ensures forall i :: 0 <= i < |es| ==> es[i] == Entry(names[i], highs[i], lows[i])
  {
    if names == [] || highs == [] || lows == [] then []
    else [Entry(names[0], highs[0], lows[0])] + Zip(names[1..], highs[1..], lows[1..])
  }

  /** What one iteration of the loop does to the bounds. */
  function Step<T>(b: Bounds<T>, e: Entry<T>): Bounds<T>
  {
    match Classify(e.name)
    case Some(Mean) => b.(minMean := Some(e.low), maxMean := Some(e.high))
    case Some(Disp) => b.(minDisp := Some(e.low), maxDisp := Some(e.high))
    case None => b
  }

  /** The bounds after the loop has processed `es` in order, starting from `Unset()`. */
  function Apply<T>(es: seq<Entry<T>>): Bounds<T>
  {
    if es == [] then Unset() else Step(Apply(es[..|es| - 1]), es[|es| - 1])
  }

  /** The names that draw an "unsupported parameter name" warning, in the order they are met. */
  function Omitted<T>(es: seq<Entry<T>>): seq<string>
  {
    if es == [] then []
    else
      var last := es[|es| - 1];
      Omitted(es[..|es| - 1]) + (if Classify(last.name).None? then [last.name] else [])
  }

  /** The bounds the script passes on, as a function of its three lists. */
  function Resolve<T>(names: seq<string>, highs: seq<T>, lows: seq<T>): Bounds<T>
  {
    Apply(Zip(names, highs, lows))
  }

  /** The warnings the script logs, one per unsupported name, as a function of its three lists. */
  function Warnings<T>(names: seq<string>, highs: seq<T>, lows: seq<T>): seq<string>
  {
    Omitted(Zip(names, highs, lows))
  }

  // ---------------------------------------------------------------------
  // The loop
  // ---------------------------------------------------------------------

  /**
    The loop itself. The four bounds are its four local variables; instead of
    logging, each unsupported name is appended to `omitted`.
  */
  method ResolveThresholds<T>(names: seq<string>, highs: seq<T>, lows: seq<T>)
    returns (minMean: Option<T>, maxMean: Option<T>, minDisp: Option<T>, maxDisp: Option<T>, omitted: seq<string>)
    ensures Bounds(minMean, maxMean, minDisp, maxDisp) == Resolve(names, highs, lows)
    ensures omitted == Warnings(names, highs, lows)
  {
    minMean, maxMean, minDisp, maxDisp := None, None, None, None;
    omitted := [];
    ghost var es := Zip(names, highs, lows);
    var i := 0;
    while i < |names| && i < |highs| && i < |lows|
      invariant 0 <= i <= |es|
      invariant Bounds(minMean, maxMean, minDisp, maxDisp) == Apply(es[..i])
      invariant omitted == Omitted(es[..i])
    {
      var name, high, low := names[i], highs[i], lows[i];
      ghost var done, e := es[..i], Entry(name, high, low);
      PrefixGrows(es, i);
      AppendOne(done, e);
      if name == "mean" {
        assert Classify(name) == Some(Mean);
        minMean := Some(low);
        maxMean := Some(high);
      } else if name == "disp" {
        assert Classify(name) == Some(Disp);
        minDisp := Some(low);
        maxDisp := Some(high);
      } else {
        assert Classify(name) == None;
        omitted := omitted + [name];
      }
      i := i + 1;
    }
    assert es[..i] == es;
  }

  // ---------------------------------------------------------------------
  // Properties
  // ---------------------------------------------------------------------

  /** With any of the three lists empty, nothing is read: all bounds stay unset and nothing is warned about. */
  lemma ResolveEmpty<T>(names: seq<string>, highs: seq<T>, lows: seq<T>)
    requires names == [] || highs == [] || lows == []
    ensures Resolve(names, highs, lows) == Unset()
    ensures Warnings(names, highs, lows) == []
  {
  }

  /** Only the first `Min3(|names|, |highs|, |lows|)` positions are read: the tails past the shortest list do not matter. */
  lemma ResolveReadsShortestPrefix<T>(names: seq<string>, highs: seq<T>, lows: seq<T>)
    ensures var n := Min3(|names|, |highs|, |lows|);
      && n <= |names| && n <= |highs| && n <= |lows|
      && Resolve(names, highs, lows) == Resolve(names[..n], highs[..n], lows[..n])
      && Warnings(names, highs, lows) == Warnings(names[..n], highs[..n], lows[..n])
  {
    var n := Min3(|names|, |highs|, |lows|);
    assert Zip(names, highs, lows) == Zip(names[..n], highs[..n], lows[..n]);
  }

  /** Taking one more element of `s`: the prefix of length `i + 1` is the prefix of length `i` followed by `s[i]`. */
  lemma PrefixGrows<X>(s: seq<X>, i: nat)
    requires i < |s|
    ensures s[..i + 1] == s[..i] + [s[i]]
  {
  }

  /** One step of the fold: the loop's effect of processing `e` after `es`. */
  lemma AppendOne<T>(es: seq<Entry<T>>, e: Entry<T>)
    ensures Apply(es + [e]) == Step(Apply(es), e)
    ensures Omitted(es + [e]) == Omitted(es) + (if Classify(e.name).None? then [e.name] else [])
  {
    assert (es + [e])[..|es|] == es;
  }

  /**
    One more entry: "mean" sets the mean pair to (low, high) and leaves the
    dispersion pair alone, "disp" does the converse, and any other name
    changes no bound and adds exactly its own name to the warnings.
  */
  lemma ProcessEntry<T>(es: seq<Entry<T>>, e: Entry<T>)
    ensures e.name == "mean" ==>
      Apply(es + [e]).Range(Mean) == (Some(e.low), Some(e.high)) && Apply(es + [e]).Range(Disp) == Apply(es).Range(Disp)
    ensures e.name == "disp" ==>
      Apply(es + [e]).Range(Disp) == (Some(e.low), Some(e.high)) && Apply(es + [e]).Range(Mean) == Apply(es).Range(Mean)
    ensures e.name != "mean" && e.name != "disp" ==>
      Apply(es + [e]) == Apply(es) && Omitted(es + [e]) == Omitted(es) + [e.name]
    ensures e.name == "mean" || e.name == "disp" ==> Omitted(es + [e]) == Omitted(es)
  {
  }

  /**
    An entry with an unsupported name, wherever it stands, has no effect on
    the bounds: the loop goes on, and processing everything around it gives
    the same bounds as if it were not there.
  */
  lemma {:induction false} UnsupportedEntryIgnored<T>(before: seq<Entry<T>>, u: Entry<T>, after: seq<Entry<T>>)
    requires Classify(u.name).None?
    ensures Apply(before + [u] + after) == Apply(before + after)
  {
    if after == [] {
      assert before + [u] + after == before + [u];
      assert before + after == before;
      AppendOne(before, u);
    } else {
      var init, last := after[..|after| - 1], after[|after| - 1];
      var withU, withoutU := before + [u] + init, before + init;
      assert before + [u] + after == withU + [last];
      assert before + after == withoutU + [last];
      UnsupportedEntryIgnored(before, u, init);
      AppendOne(withU, last);
      AppendOne(withoutU, last);
    }
  }

  /**
    The same entry draws exactly one warning, naming it, placed between the
    warnings of the entries before it and those of the entries after it.
  */
  lemma UnsupportedEntryWarned<T>(before: seq<Entry<T>>, u: Entry<T>, after: seq<Entry<T>>)
    requires Classify(u.name).None?
    ensures Omitted(before + [u] + after) == Omitted(before) + [u.name] + Omitted(after)
  {
    OmittedConcat(before, [u]);
    OmittedConcat(before + [u], after);
    AppendOne([], u);
    assert [] + [u] == [u];
  }

  /** The warnings of a concatenation are the warnings of its parts, in order. */
  lemma {:induction false} OmittedConcat<T>(xs: seq<Entry<T>>, ys: seq<Entry<T>>)
    ensures Omitted(xs + ys) == Omitted(xs) + Omitted(ys)
  {
    if ys != [] {
      var init, last := ys[..|ys| - 1], ys[|ys| - 1];
      assert ys == init + [last];
      assert xs + ys == (xs + init) + [last];
      OmittedConcat(xs, init);
      AppendOne(xs + init, last);
      AppendOne(init, last);
    } else {
      assert xs + ys == xs;
    }
  }

  /**
    Last wins: when the name of `p` occurs at position `i` and at no later
    position, the pair of `p` is (low, high) of entry `i`. Nothing relates
    low to high: the values are passed through unchecked.
  */
  lemma {:induction false} LastOccurrenceWins<T>(es: seq<Entry<T>>, i: nat, p: Param)
    requires i < |es| && es[i].name == NameOf(p)
    requires forall j :: i < j < |es| ==> es[j].name != NameOf(p)
    ensures Apply(es).Range(p) == (Some(es[i].low), Some(es[i].high))
  {
    var init := es[..|es| - 1];
    if i < |es| - 1 {
      LastOccurrenceWins(init, i, p);
    }
  }

  /**
    Last wins, stated on the script's three lists: when position `i` is read,
    names `p` and no later read position does, the minimum of `p` is
    `lows[i]` and its maximum is `highs[i]`.
  */
  lemma ResolveLastWins<T>(names: seq<string>, highs: seq<T>, lows: seq<T>, i: nat, p: Param)
    requires i < Min3(|names|, |highs|, |lows|) && names[i] == NameOf(p)
    requires forall j :: i < j < Min3(|names|, |highs|, |lows|) ==> names[j] != NameOf(p)
    ensures i < |highs| && i < |lows|
    ensures Resolve(names, highs, lows).Range(p) == (Some(lows[i]), Some(highs[i]))
  {
    LastOccurrenceWins(Zip(names, highs, lows), i, p);
  }

  /**
    A pair is set exactly when its name occurs among the entries read, and
    its two halves are always set together.
  */
  lemma {:induction false} RangeSetIffNamed<T>(es: seq<Entry<T>>, p: Param)
    ensures Apply(es).Range(p).0.Some? <==> exists i :: 0 <= i < |es| && es[i].name == NameOf(p)
    ensures Apply(es).Range(p).0.Some? <==> Apply(es).Range(p).1.Some?
  {
    if es != [] {
      var init := es[..|es| - 1];
      RangeSetIffNamed(init, p);
      if es[|es| - 1].name != NameOf(p) {
        assert forall i :: 0 <= i < |init| ==> init[i] == es[i];
      }
    }
  }

  /**
    The same on the script's three lists: the pair of `p` is set exactly when
    some read position names `p`, and its two halves are set together.
  */
  lemma ResolveRangeSetIffNamed<T>(names: seq<string>, highs: seq<T>, lows: seq<T>, p: Param)
    ensures Resolve(names, highs, lows).Range(p).0.Some?
        <==> exists i :: 0 <= i < Min3(|names|, |highs|, |lows|) && names[i] == NameOf(p)
    ensures Resolve(names, highs, lows).Range(p).0.Some? <==> Resolve(names, highs, lows).Range(p).1.Some?
  {
    var es := Zip(names, highs, lows);
    RangeSetIffNamed(es, p);
    assert forall i :: 0 <= i < |es| ==> es[i].name == names[i];
  }

  /** The positions whose name is neither "mean" nor "disp". */
  function UnsupportedPositions<T>(es: seq<Entry<T>>): set<nat>
  {
    set i: nat | i < |es| && Classify(es[i].name).None?
  }

  /** Extending the entries by one adds its position exactly when its name is unsupported. */
  lemma UnsupportedPositionsSnoc<T>(init: seq<Entry<T>>, last: Entry<T>)
    ensures UnsupportedPositions(init + [last])
         == UnsupportedPositions(init) + (if Classify(last.name).None? then {|init|} else {})
  {
  }

  /** One warning per entry with an unsupported name: the number of warnings is the number of such positions. */
  lemma {:induction false} WarningCount<T>(es: seq<Entry<T>>)
    ensures |Omitted(es)| == |UnsupportedPositions(es)|
  {
    if es != [] {
      var init, last := es[..|es| - 1], es[|es| - 1];
      var marked := UnsupportedPositions(init);
      WarningCount(init);
      assert es == init + [last];
      AppendOne(init, last);
      UnsupportedPositionsSnoc(init, last);
      if Classify(last.name).None? {
        assert |init| !in marked;
        assert |Omitted(es)| == |Omitted(init)| + 1;
        assert |marked + {|init|}| == |marked| + 1;
      } else {
        assert Omitted(es) == Omitted(init);
      }
    }
  }

  /** Every warned name is unsupported. */
  lemma {:induction false} WarnedNamesUnsupported<T>(es: seq<Entry<T>>)
    ensures forall k :: 0 <= k < |Omitted(es)| ==> Classify(Omitted(es)[k]).None?
  {
    if es != [] {
      var init, last := es[..|es| - 1], es[|es| - 1];
      WarnedNamesUnsupported(init);
      assert es == init + [last];
      AppendOne(init, last);
    }
  }

  /**
    The same on the script's three lists: one warning per read position whose
    name is neither "mean" nor "disp", and no warning names "mean" or "disp".
  */
  lemma ResolveWarningCount<T>(names: seq<string>, highs: seq<T>, lows: seq<T>)
    ensures |Warnings(names, highs, lows)|
         == |set i: nat | i < Min3(|names|, |highs|, |lows|) && names[i] != "mean" && names[i] != "disp"|
    ensures forall k :: 0 <= k < |Warnings(names, highs, lows)| ==>
      Warnings(names, highs, lows)[k] != "mean" && Warnings(names, highs, lows)[k] != "disp"
  {
    var es := Zip(names, highs, lows);
    WarningCount(es);
    WarnedNamesUnsupported(es);
    var n := Min3(|names|, |highs|, |lows|);
    assert UnsupportedPositions(es) == set i: nat | i < n && names[i] != "mean" && names[i] != "disp" by {
      forall i: nat | i < n ensures es[i].name == names[i] { }
    }
    forall k | 0 <= k < |Omitted(es)| ensures Omitted(es)[k] != "mean" && Omitted(es)[k] != "disp" {
      assert Classify(Omitted(es)[k]).None?;
    }
  }

  /**
    A worked example: a repeated "mean" and an unsupported "variance". The
    last "mean" wins even though its low exceeds its high, "variance" is
    skipped with one warning, and the dispersion pair stays unset.
  */
  lemma ExampleRun()
    ensures Resolve(["mean", "variance", "mean"], [3.0, 7.0, 1.0], [0.5, 0.0, 2.0])
         == Bounds(Some(2.0), Some(1.0), None, None)
    ensures Warnings(["mean", "variance", "mean"], [3.0, 7.0, 1.0], [0.5, 0.0, 2.0]) == ["variance"]
  {
    var es := Zip(["mean", "variance", "mean"], [3.0, 7.0, 1.0], [0.5, 0.0, 2.0]);
    assert es == [Entry("mean", 3.0, 0.5), Entry("variance", 7.0, 0.0), Entry("mean", 1.0, 2.0)];
    assert es[..2][..1] == [Entry("mean", 3.0, 0.5)];
    assert es[..2] == [Entry("mean", 3.0, 0.5), Entry("variance", 7.0, 0.0)];
    assert Classify("variance") == None;
    assert Apply(es[..1]) == Bounds(Some(0.5), Some(3.0), None, None);
    assert Apply(es[..2]) == Bounds(Some(0.5), Some(3.0), None, None);
    assert es[..1][..0] == [];
    assert Omitted(es[..1]) == [];
    assert Omitted(es[..2]) == ["variance"];
  }
}

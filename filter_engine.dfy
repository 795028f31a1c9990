/**
 * `filter_data`: the optional minimum-price / minimum-24h-change filter.
 * The three console answers are parameters; printing is left out.
 */
module FilterEngine {
  import opened Common
  import opened Text
  import opened Table

  /** The answers to the prompts "Apply filter?", "Minimum Price ($)" and "Minimum 24h change (%)". */
  datatype FilterAnswers = FilterAnswers(apply: string, minPrice: string, minChange: string)

  /** The two columns the filter compares. */
  datatype Column = Price | Change24h

  function Cell(c: Coin, col: Column): string
  {
    match col
    case Price => c.price
    case Change24h => c.change24h
  }

  /** `float(clean_number(x))` on the row's cell in col; None when float raises. */
  function Numeric(c: Coin, col: Column, parse: Parser): Option<real>
  {
    parse(CleanNumber(Cell(c, col)))
  }

  /** Every row's cell in col parses as a number. */
  predicate ColumnParses(df: seq<Coin>, col: Column, parse: Parser)
  {
    forall c :: c in df ==> Numeric(c, col, parse).Some?
  }

  /**
   * `df[col].apply(lambda x: float(clean_number(x)))`: the numeric column, or
   * None when some row raises.
   */
  function ApplyParse(df: seq<Coin>, col: Column, parse: Parser): (r: Option<seq<real>>)
    ensures r.Some? <==> ColumnParses(df, col, parse)
    ensures r.Some? ==> |r.value| == |df| && forall k :: 0 <= k < |df| ==> Numeric(df[k], col, parse) == Some(r.value[k])
  {
    if df == [] then Some([])
    else
      assert forall c :: c in df <==> c == df[0] || c in df[1..];
      match (Numeric(df[0], col, parse), ApplyParse(df[1..], col, parse))
      case (Some(x), Some(xs)) => Some([x] + xs)
      case _ => None
  }

  /** `df[nums >= t]`: the rows whose number is at least t, in order. */
  function Mask(df: seq<Coin>, nums: seq<real>, t: real): seq<Coin>
    requires |nums| == |df|
  {
    if df == [] then []
    else (if nums[0] >= t then [df[0]] else []) + Mask(df[1..], nums[1..], t)
  }

  /** The thresholds in force: an empty string puts no constraint on its column. */
  datatype Bounds = Bounds(minPrice: string, minChange: string)

  /** Row c satisfies bound on col: bound is empty, or the cell's number is at least the bound's number. */
  predicate MeetsBound(c: Coin, col: Column, bound: string, parse: Parser)
  {
    bound == "" || (Numeric(c, col, parse).Some? && parse(bound).Some? && Numeric(c, col, parse).value >= parse(bound).value)
  }

  predicate Meets(c: Coin, b: Bounds, parse: Parser)
  {
    MeetsBound(c, Price, b.minPrice, parse) && MeetsBound(c, Change24h, b.minChange, parse)
  }

  /** The rows that meet both bounds, in their original order. */
  function Matching(df: seq<Coin>, b: Bounds, parse: Parser): seq<Coin>
  {
    if df == [] then []
    else (if Meets(df[0], b, parse) then [df[0]] else []) + Matching(df[1..], b, parse)
  }

  /**
   * Matching keeps the rows of df that meet the bounds, each as often as it
   * occurs in df, drops every other row, and keeps the original order.
   */
  lemma {:induction false} MatchingSelects(df: seq<Coin>, b: Bounds, parse: Parser)
    ensures IsSubsequence(Matching(df, b, parse), df)
    ensures forall c :: c in Matching(df, b, parse) ==> c in df && Meets(c, b, parse)
    ensures forall c :: multiset(Matching(df, b, parse))[c] == if Meets(c, b, parse) then multiset(df)[c] else 0
    decreases |df|
  {
    if df != [] {
      assert df == [df[0]] + df[1..];
      var rest := Matching(df[1..], b, parse);
      MatchingSelects(df[1..], b, parse);
      if Meets(df[0], b, parse) {
        assert Matching(df, b, parse) == [df[0]] + rest;
        assert ([df[0]] + rest)[1..] == rest;
      } else {
        assert Matching(df, b, parse) == rest;
      }
    }
  }

  /** The step for col with threshold bound does not raise. */
  predicate StepSucceeds(df: seq<Coin>, col: Column, bound: string, parse: Parser)
  {
    bound == "" || (ColumnParses(df, col, parse) && parse(bound).Some?)
  }

  /**
   * What `filter_data` returns. A declined prompt leaves the table as it is.
   * Otherwise a failing price step returns the table unchanged, a failing
   * 24h step returns the rows that passed the price step, and a run without
   * errors returns the rows meeting both bounds.
   */
  function FilterResult(df: seq<Coin>, answers: FilterAnswers, parse: Parser): seq<Coin>
  {
    if !IsYes(answers.apply) then df
    else if !StepSucceeds(df, Price, answers.minPrice, parse) then df
    else
      var priced := Matching(df, Bounds(answers.minPrice, ""), parse);
      if !StepSucceeds(priced, Change24h, answers.minChange, parse) then priced
      else Matching(df, Bounds(answers.minPrice, answers.minChange), parse)
  }

  /** Bounds that constrain only col. */
  function Only(col: Column, bound: string): Bounds
  {
    match col
    case Price => Bounds(bound, "")
    case Change24h => Bounds("", bound)
  }

  /** Masking by the parsed column keeps exactly the rows that meet the bound on that column. */
  lemma {:induction false} MaskIsMatching(df: seq<Coin>, nums: seq<real>, col: Column, bound: string, parse: Parser)
    requires bound != "" && parse(bound).Some?
    requires |nums| == |df|
    requires forall k :: 0 <= k < |df| ==> Numeric(df[k], col, parse) == Some(nums[k])
    ensures Mask(df, nums, parse(bound).value) == Matching(df, Only(col, bound), parse)
    decreases |df|
  {
    if df != [] {
      MaskIsMatching(df[1..], nums[1..], col, bound, parse);
    }
  }

  /** No bounds: every row matches. */
  lemma {:induction false} MatchingUnbounded(df: seq<Coin>, parse: Parser)
    ensures Matching(df, Bounds("", ""), parse) == df
    decreases |df|
  {
    if df != [] {
      MatchingUnbounded(df[1..], parse);
    }
  }

  /** Filtering by price and then by change is filtering by both. */
  lemma {:induction false} MatchingComposes(df: seq<Coin>, minPrice: string, minChange: string, parse: Parser)
    ensures Matching(Matching(df, Bounds(minPrice, ""), parse), Bounds("", minChange), parse)
         == Matching(df, Bounds(minPrice, minChange), parse)
    decreases |df|
  {
    if df != [] {
      var price, change, both := Bounds(minPrice, ""), Bounds("", minChange), Bounds(minPrice, minChange);
      MatchingComposes(df[1..], minPrice, minChange, parse);
      var rest := Matching(df[1..], price, parse);
      assert Meets(df[0], both, parse) <==> Meets(df[0], price, parse) && Meets(df[0], change, parse);
      if Meets(df[0], price, parse) {
        assert Matching(df, price, parse) == [df[0]] + rest;
        assert ([df[0]] + rest)[1..] == rest;
        assert Matching([df[0]] + rest, change, parse)
            == (if Meets(df[0], change, parse) then [df[0]] else []) + Matching(rest, change, parse);
      } else {
        assert Matching(df, price, parse) == rest;
      }
    }
  }

  /**
   * `filter_data`: asks whether to filter, then applies the price bound and
   * the 24h bound in turn, reassigning the table after each; an exception in
   * either step returns the table as it stands at that point.
   */
  method FilterData(table: seq<Coin>, answers: FilterAnswers, parse: Parser) returns (df: seq<Coin>)
    ensures df == FilterResult(table, answers, parse)
  {
    df := table;
    if Lower(answers.apply) != "y" {
      return;
    }
    MatchingUnbounded(table, parse);
    if answers.minPrice != "" {
      var priceNum := ApplyParse(df, Price, parse);
      var minPrice := parse(answers.minPrice);
      if priceNum.None? || minPrice.None? {
        return;
      }
      MaskIsMatching(df, priceNum.value, Price, answers.minPrice, parse);
      df := Mask(df, priceNum.value, minPrice.value);
    }
    assert df == Matching(table, Bounds(answers.minPrice, ""), parse);
    if answers.minChange != "" {
      var changeNum := ApplyParse(df, Change24h, parse);
      var minChange := parse(answers.minChange);
      if changeNum.None? || minChange.None? {
        return;
      }
      MaskIsMatching(df, changeNum.value, Change24h, answers.minChange, parse);
      df := Mask(df, changeNum.value, minChange.value);
      MatchingComposes(table, answers.minPrice, answers.minChange, parse);
    } else {
      assert Bounds(answers.minPrice, answers.minChange) == Bounds(answers.minPrice, "");
    }
  }

  /** A declined prompt returns the table unchanged; so does an accepted one with both thresholds empty. */
  lemma FilterWithoutBoundsIsIdentity(df: seq<Coin>, answers: FilterAnswers, parse: Parser)
    requires !IsYes(answers.apply) || (answers.minPrice == "" && answers.minChange == "")
    ensures FilterResult(df, answers, parse) == df
  {
    MatchingUnbounded(df, parse);
  }

  /** Whatever happens, the result keeps some of the rows in their original order. */
  lemma FilterKeepsOrder(df: seq<Coin>, answers: FilterAnswers, parse: Parser)
    ensures IsSubsequence(FilterResult(df, answers, parse), df)
  {
    SubsequenceRefl(df);
    MatchingSelects(df, Bounds(answers.minPrice, ""), parse);
    MatchingSelects(df, Bounds(answers.minPrice, answers.minChange), parse);
  }

  /**
   * When the price step parses every row and the 24h step parses every row
   * that passed the price bound, the result is exactly the rows meeting both
   * inclusive bounds, in order.
   */
  lemma FilterAllParse(df: seq<Coin>, answers: FilterAnswers, parse: Parser)
    requires IsYes(answers.apply)
    requires StepSucceeds(df, Price, answers.minPrice, parse)
    requires StepSucceeds(Matching(df, Bounds(answers.minPrice, ""), parse), Change24h, answers.minChange, parse)
    ensures FilterResult(df, answers, parse) == Matching(df, Bounds(answers.minPrice, answers.minChange), parse)
  {
  }

  /**
   * The error paths: a failing price step returns the table it was given; a
   * failing 24h step returns the price-filtered rows, not the original table.
   */
  lemma FilterErrorPaths(df: seq<Coin>, answers: FilterAnswers, parse: Parser)
    requires IsYes(answers.apply)
    ensures !StepSucceeds(df, Price, answers.minPrice, parse) ==> FilterResult(df, answers, parse) == df
    ensures StepSucceeds(df, Price, answers.minPrice, parse)
            && !StepSucceeds(Matching(df, Bounds(answers.minPrice, ""), parse), Change24h, answers.minChange, parse)
            ==> FilterResult(df, answers, parse) == Matching(df, Bounds(answers.minPrice, ""), parse)
  {
  }
}

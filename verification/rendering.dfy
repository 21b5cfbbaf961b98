/** The acknowledgement do_GET builds for the uploading station: str() of the
    decoded dictionary with every single quote replaced by a double quote,
    wrapped in a fixed HTML page. */
module Rendering {

  import opened Readings
  import opened Decoder
  import PyNumbers

  /** Python's str() of a stored number. Python writes floats in their
      shortest round-trip form, which is not a function of a real number, so
      the float form is supplied by the caller. */
  function ShowValue(v: Value, showFloat: real -> string): string
  {
    match v
    case Int(i) => PyNumbers.ShowInt(i)
    case Float(x) => showFloat(x)
  }

  /** The float form Python uses never contains a single quote. */
  ghost predicate QuoteFree(showFloat: real -> string)
  {
    forall x :: '\'' !in showFloat(x)
  }

  /** Readings listed strictly in branch order, so each at most once. */
  predicate InBranchOrder(rs: seq<Reading>)
  {
    forall i, j :: 0 <= i < j < |rs| ==> Position(rs[i]) < Position(rs[j])
  }

  /** The readings of rs present in d, in the order of rs: the insertion
      order of the decoder's dictionary when rs is Order. */
  function Present(rs: seq<Reading>, d: map<Reading, Value>): (p: seq<Reading>)
    ensures forall r :: r in p <==> r in rs && r in d
    ensures |p| <= |rs|
    ensures InBranchOrder(rs) ==> InBranchOrder(p)
  {
    if rs == [] then []
    else
      var rest := Present(rs[1..], d);
      assert InBranchOrder(rs) ==> InBranchOrder(rs[1..]) by {
        if InBranchOrder(rs) {
          forall i, j | 0 <= i < j < |rs| - 1 ensures Position(rs[1..][i]) < Position(rs[1..][j]) {
            assert rs[1..][i] == rs[i + 1] && rs[1..][j] == rs[j + 1];
          }
        }
      }
      if rs[0] in d then
        assert InBranchOrder(rs) ==> forall k :: 0 <= k < |rest| ==> Position(rs[0]) < Position(rest[k]) by {
          if InBranchOrder(rs) {
            forall k | 0 <= k < |rest| ensures Position(rs[0]) < Position(rest[k]) {
              assert rest[k] in rs[1..];
              var m :| 0 <= m < |rs| - 1 && rs[1..][m] == rest[k];
              assert rs[m + 1] == rest[k];
            }
          }
        }
        [rs[0]] + rest
      else rest
  }

  /** One dictionary entry, its key written between the given quotes. */
  function Entry(r: Reading, d: map<Reading, Value>, showFloat: real -> string, quote: char): string
    requires r in d
  {
    [quote] + Label(r) + [quote] + ": " + ShowValue(d[r], showFloat)
  }

  /** The entries for rs, separated by ", ". */
  function Entries(rs: seq<Reading>, d: map<Reading, Value>, showFloat: real -> string, quote: char): string
    requires forall r :: r in rs ==> r in d
  {
    if rs == [] then ""
    else if |rs| == 1 then Entry(rs[0], d, showFloat, quote)
    else Entry(rs[0], d, showFloat, quote) + ", " + Entries(rs[1..], d, showFloat, quote)
  }

  /** A dictionary written with its keys between the given quotes. */
  function DictText(d: map<Reading, Value>, showFloat: real -> string, quote: char): string
  {
    "{" + Entries(Present(Order, d), d, showFloat, quote) + "}"
  }

  /** str(): Python writes string keys between single quotes, the entries
      in insertion order between braces; an empty dictionary is "{}". */
  function PyStr(d: map<Reading, Value>, showFloat: real -> string): (s: string)
    ensures |s| >= 2 && s[0] == '{' && s[|s| - 1] == '}'
    ensures |d| == 0 <==> s == "{}"
    ensures |d| > 0 ==> s[1] == '\''
  {
    PresentOfEmpty(d);
    DictText(d, showFloat, '\'')
  }

  /** The readings of Order present in d are exactly d's keys, listed in
      branch order, so str() shows them in the decoder's insertion order. */
  lemma PresentIsInsertionOrder(d: map<Reading, Value>)
    ensures forall r :: r in Present(Order, d) <==> r in d
    ensures InBranchOrder(Present(Order, d))
  {
    OrderListsEveryReadingOnce();
    forall i, j | 0 <= i < j < |Order| ensures Position(Order[i]) < Position(Order[j]) {
      assert Order[Position(Order[i])] == Order[i];
      assert Order[Position(Order[j])] == Order[j];
    }
  }

  lemma PresentOfEmpty(d: map<Reading, Value>)
    ensures Present(Order, d) == [] <==> |d| == 0
  {
    OrderListsEveryReadingOnce();
    var p := Present(Order, d);
    if |d| > 0 {
      var r :| r in d;
      assert r in p;
    }
    assert p != [] ==> p[0] in d;
  }

  /** str.replace("'", '"'). */
  function ReplaceQuotes(s: string): (t: string)
    ensures |t| == |s|
    ensures forall i :: 0 <= i < |s| ==> t[i] == (if s[i] == '\'' then '"' else s[i])
  {
    if s == [] then ""
    else [if s[0] == '\'' then '"' else s[0]] + ReplaceQuotes(s[1..])
  }

  /** The text between the h1 tags. */
  function AckText(d: map<Reading, Value>, showFloat: real -> string): string
  {
    ReplaceQuotes(PyStr(d, showFloat))
  }

  const PageHead: string := "<html><head></head><body><h1>"
  const PageTail: string := "</h1></body></html>"

  /** The f-string page around the acknowledgement: between the h1 tags
      stands the dictionary with double-quoted keys, and no single quote
      appears anywhere in the page. */
  function HtmlPage(d: map<Reading, Value>, showFloat: real -> string): (page: string)
    ensures |page| >= |PageHead| + |PageTail|
    ensures page[..|PageHead|] == PageHead
    ensures page[|page| - |PageTail|..] == PageTail
    ensures QuoteFree(showFloat) ==>
              page[|PageHead|..|page| - |PageTail|] == DictText(d, showFloat, '"')
    ensures QuoteFree(showFloat) ==> '\'' !in page
  {
    AckTextIsDoubleQuotedWhenQuoteFree(d, showFloat);
    PageFrameIsQuoteFree();
    Framed(PageHead, AckText(d, showFloat), PageTail);
    PageHead + AckText(d, showFloat) + PageTail
  }

  lemma Framed(head: string, text: string, tail: string)
    ensures var page := head + text + tail;
      && |page| == |head| + |text| + |tail|
      && page[..|head|] == head
      && page[|page| - |tail|..] == tail
      && page[|head|..|page| - |tail|] == text
      && ('\'' !in head && '\'' !in text && '\'' !in tail ==> '\'' !in page)
  {
    var page := head + text + tail;
    assert page[..|head|] == head;
    assert page[|page| - |tail|..] == tail;
    assert page[|head|..|page| - |tail|] == text;
  }

  lemma PageFrameIsQuoteFree()
    ensures '\'' !in PageHead && '\'' !in PageTail
  {
  }

  lemma ReplaceQuotesConcat(a: string, b: string)
    ensures ReplaceQuotes(a + b) == ReplaceQuotes(a) + ReplaceQuotes(b)
  {
  }

  lemma ReplaceQuotesKeepsQuoteFree(s: string)
    requires '\'' !in s
    ensures ReplaceQuotes(s) == s
  {
  }

  /** No label holds a single quote; checked in three groups to keep each
      proof small. */
  lemma LabelIsQuoteFree(r: Reading)
    ensures '\'' !in Label(r)
  {
    if r in {TemperatureOut, HumidityOut, DewPoint, WindDirection, WindSpeed, WindGustSpeed} {
      OutdoorLabelsAreQuoteFree(r);
    } else if r in {RainRate, RainDaily, RainWeekly, RainMonthly, RainYearly} {
      RainLabelsAreQuoteFree(r);
    } else {
      OtherLabelsAreQuoteFree(r);
    }
  }

  lemma OutdoorLabelsAreQuoteFree(r: Reading)
    requires r in {TemperatureOut, HumidityOut, DewPoint, WindDirection, WindSpeed, WindGustSpeed}
    ensures '\'' !in Label(r)
  {
  }

  lemma RainLabelsAreQuoteFree(r: Reading)
    requires r in {RainRate, RainDaily, RainWeekly, RainMonthly, RainYearly}
    ensures '\'' !in Label(r)
  {
  }

  lemma OtherLabelsAreQuoteFree(r: Reading)
    requires r in {SolarRadiation, Uv, TemperatureIn, HumidityIn, BarometricPressure, LowBattery}
    ensures '\'' !in Label(r)
  {
  }

  lemma ShowValueIsQuoteFree(v: Value, showFloat: real -> string)
    requires QuoteFree(showFloat)
    ensures '\'' !in ShowValue(v, showFloat)
  {
    if v.Int? {
      var s := PyNumbers.ShowInt(v.i);
      assert forall k :: 0 <= k < |s| ==> s[k] == '-' || PyNumbers.IsDigit(s[k]);
    }
  }

  lemma EntryRequoted(r: Reading, d: map<Reading, Value>, showFloat: real -> string)
    requires r in d
    requires QuoteFree(showFloat)
    ensures ReplaceQuotes(Entry(r, d, showFloat, '\'')) == Entry(r, d, showFloat, '"')
  {
    var name := Label(r);
    var value := ShowValue(d[r], showFloat);
    LabelIsQuoteFree(r);
    ShowValueIsQuoteFree(d[r], showFloat);
    var single := Entry(r, d, showFloat, '\'');
    var double := Entry(r, d, showFloat, '"');
    var t := ReplaceQuotes(single);
    assert |t| == |double|;
    forall k | 0 <= k < |t| ensures t[k] == double[k] {
      if 0 < k <= |name| {
        assert single[k] == name[k - 1];
      } else if |name| + 3 < k {
        assert single[k] == value[k - |name| - 4];
      }
    }
  }

  lemma {:induction false} EntriesRequoted(rs: seq<Reading>, d: map<Reading, Value>, showFloat: real -> string)
    requires forall r :: r in rs ==> r in d
    requires QuoteFree(showFloat)
    ensures ReplaceQuotes(Entries(rs, d, showFloat, '\'')) == Entries(rs, d, showFloat, '"')
  {
    if rs != [] {
      var r := rs[0];
      EntryRequoted(r, d, showFloat);
      if |rs| > 1 {
        var head := Entry(r, d, showFloat, '\'');
        var tail := Entries(rs[1..], d, showFloat, '\'');
        assert Entries(rs, d, showFloat, '\'') == head + ", " + tail;
        EntriesRequoted(rs[1..], d, showFloat);
        ReplaceQuotesConcat(head + ", ", tail);
        ReplaceQuotesConcat(head, ", ");
        ReplaceQuotesKeepsQuoteFree(", ");
      }
    }
  }

  lemma BracedRequoted(entries: string, requoted: string)
    requires ReplaceQuotes(entries) == requoted
    ensures ReplaceQuotes("{" + entries + "}") == "{" + requoted + "}"
  {
    ReplaceQuotesConcat("{" + entries, "}");
    ReplaceQuotesConcat("{", entries);
  }

  lemma DictTextRequoted(d: map<Reading, Value>, showFloat: real -> string, present: seq<Reading>)
    requires QuoteFree(showFloat)
    requires present == Present(Order, d)
    ensures ReplaceQuotes(DictText(d, showFloat, '\'')) == DictText(d, showFloat, '"')
  {
    EntriesRequoted(present, d, showFloat);
    BracedRequoted(Entries(present, d, showFloat, '\''), Entries(present, d, showFloat, '"'));
  }

  /** Replacing the quotes touches only the quotes around the keys: the
      acknowledgement is the dictionary with its keys in double quotes,
      entries in insertion order, and it holds no single quote at all. */
  lemma AckTextIsDoubleQuoted(d: map<Reading, Value>, showFloat: real -> string)
    requires QuoteFree(showFloat)
    ensures AckText(d, showFloat) == DictText(d, showFloat, '"')
    ensures '\'' !in AckText(d, showFloat)
  {
    var single := DictText(d, showFloat, '\'');
    assert AckText(d, showFloat) == ReplaceQuotes(single);
    DictTextRequoted(d, showFloat, Present(Order, d));
    ReplaceQuotesLeavesNoSingleQuote(single);
  }

  lemma ReplaceQuotesLeavesNoSingleQuote(s: string)
    ensures '\'' !in ReplaceQuotes(s)
  {
    var t := ReplaceQuotes(s);
    forall i | 0 <= i < |t| ensures t[i] != '\'' {
    }
  }

  lemma AckTextIsDoubleQuotedWhenQuoteFree(d: map<Reading, Value>, showFloat: real -> string)
    ensures QuoteFree(showFloat) ==> AckText(d, showFloat) == DictText(d, showFloat, '"')
    ensures QuoteFree(showFloat) ==> '\'' !in AckText(d, showFloat)
  {
    if QuoteFree(showFloat) {
      AckTextIsDoubleQuoted(d, showFloat);
    }
  }
}

/**
 * The `content` of a shared demo: `JSON.stringify` of the step list with each step's image
 * and thumbnail removed, so an array of `{"id":<n>,"title":"<text>"}` objects; and a reader
 * that recovers the list from that text.
 */
module StepsJson {
  import opened Wrappers
  import opened Text
  import opened JsonText

  /** A step as it appears in the content: its number and its title. */
  datatype Summary = Summary(id: nat, title: string)

  /** `{"id":<n>,"title":"<escaped title>"}`: the title key with its opening quote, the escaped
    * title, the closing quote and the closing brace. */
  function EncodeSummary(x: Summary): string {
    IdKey + NatToString(x.id) + TitleKey + Escape(x.title) + "\"" + "}"
  }

  function EncodeItems(xs: seq<Summary>): string {
    if xs == [] then ""
    else if |xs| == 1 then EncodeSummary(xs[0])
    else EncodeSummary(xs[0]) + "," + EncodeItems(xs[1..])
  }

  /** The JSON array of the summaries, without white space, as `JSON.stringify` writes it. */
  function EncodeSummaries(xs: seq<Summary>): string {
    "[" + EncodeItems(xs) + "]"
  }

  const IdKey := "{\"id\":"
  const TitleKey := ",\"title\":\""

  /** What follows `prefix` at the front of `s`. */
  function AfterPrefix(s: string, prefix: string): (r: Option<string>)
    ensures r.Some? ==> |r.value| == |s| - |prefix|
  {
    if StartsWith(s, prefix) then Some(s[|prefix|..]) else None
  }

  /** Reads a non-empty run of digits from the front of `s`: its value and what follows. */
  function ReadNumber(s: string): (r: Option<(nat, string)>)
    ensures r.Some? ==> |r.value.1| < |s|
  {
    var k := LeadingDigits(s);
    if k == 0 then None else Some((DigitsValue(s[..k]), s[k..]))
  }

  /** Reads one summary object from the front of `s`: the summary and what follows it. */
  function ReadSummary(s: string): (r: Option<(Summary, string)>)
    ensures r.Some? ==> |r.value.1| < |s|
  {
    match AfterPrefix(s, IdKey)
    case None => None
    case Some(afterId) =>
      match ReadNumber(afterId)
      case None => None
      case Some((id, afterNumber)) =>
        match AfterPrefix(afterNumber, TitleKey)
        case None => None
        case Some(inTitle) =>
          match ReadString(inTitle)
          case None => None
          case Some((title, afterTitle)) =>
            match AfterPrefix(afterTitle, "}")
            case None => None
            case Some(rest) => Some((Summary(id, title), rest))
  }

  lemma AfterPrefixOf(prefix: string, rest: string)
    ensures AfterPrefix(prefix + rest, prefix) == Some(rest)
  {
    assert (prefix + rest)[..|prefix|] == prefix;
  }

  lemma ReadNumberOf(n: nat, rest: string)
    requires rest == [] || !IsDigit(rest[0])
    ensures ReadNumber(NatToString(n) + rest) == Some((n, rest))
  {
    var digits := NatToString(n);
    LeadingDigitsOfDigits(digits, rest);
    assert (digits + rest)[..|digits|] == digits;
    assert (digits + rest)[|digits|..] == rest;
    DigitsValueOfNatToString(n);
  }

  /** Reads one or more comma-separated summaries from the front of `s`. */
  function ReadItems(s: string): Option<(seq<Summary>, string)>
    decreases |s|
  {
    match ReadSummary(s)
    case None => None
    case Some((x, rest)) =>
      if rest != [] && rest[0] == ',' then
        match ReadItems(rest[1..])
        case None => None
        case Some((xs, rest')) => Some(([x] + xs, rest'))
      else Some(([x], rest))
  }

  lemma ReadItemsLast(s: string, x: Summary, rest: string)
    requires ReadSummary(s) == Some((x, rest)) && (rest == [] || rest[0] != ',')
    ensures ReadItems(s) == Some(([x], rest))
  {
  }

  lemma ReadItemsMore(s: string, x: Summary, more: string)
    requires ReadSummary(s) == Some((x, [','] + more)) && ReadItems(more).Some?
    ensures ReadItems(s) == Some(([x] + ReadItems(more).value.0, ReadItems(more).value.1))
  {
    assert ([','] + more)[1..] == more;
  }

  /** The summaries a content string holds, or None when it is not such an array. */
  function DecodeSummaries(s: string): Option<seq<Summary>> {
    if s == "[]" then Some([])
    else if s == [] || s[0] != '[' then None
    else
      match ReadItems(s[1..])
      case Some((xs, "]")) => Some(xs)
      case _ => None
  }

  /** An encoded summary followed by `tail`, cut where the reader takes it apart. */
  lemma EncodeSummaryShape(x: Summary, tail: string)
    ensures EncodeSummary(x) + tail
      == IdKey + (NatToString(x.id) + (TitleKey + (Escape(x.title) + "\"" + ("}" + tail))))
  {
    Regroup6(IdKey, NatToString(x.id), TitleKey, Escape(x.title), "\"", "}", tail);
  }

  lemma Regroup6(a: string, b: string, c: string, d: string, e: string, f: string, g: string)
    ensures a + b + c + d + e + f + g == a + (b + (c + (d + e + (f + g))))
  {
  }

  lemma ReadSummaryOf(x: Summary, tail: string)
    ensures ReadSummary(EncodeSummary(x) + tail) == Some((x, tail))
  {
    var digits := NatToString(x.id);
    var afterTitle := "}" + tail;
    var inTitle := Escape(x.title) + "\"" + afterTitle;
    var afterNumber := TitleKey + inTitle;
    var afterId := digits + afterNumber;
    EncodeSummaryShape(x, tail);
    AfterPrefixOf(IdKey, afterId);
    ReadNumberOf(x.id, afterNumber);
    AfterPrefixOf(TitleKey, inTitle);
    ReadEscaped(x.title, afterTitle);
    AfterPrefixOf("}", tail);
  }

  lemma EncodeItemsCons(xs: seq<Summary>, tail: string)
    requires |xs| >= 2
    ensures EncodeItems(xs) + tail == EncodeSummary(xs[0]) + ([','] + (EncodeItems(xs[1..]) + tail))
  {
    Regroup(EncodeSummary(xs[0]), ",", EncodeItems(xs[1..]), tail);
  }

  lemma Regroup(a: string, b: string, c: string, d: string)
    ensures (a + b + c) + d == a + (b + (c + d))
  {
  }

  lemma ReadConsItem(x: Summary, more: string)
    requires ReadItems(more).Some?
    ensures ReadItems(EncodeSummary(x) + ([','] + more)) ==
      Some(([x] + ReadItems(more).value.0, ReadItems(more).value.1))
  {
    ReadSummaryOf(x, [','] + more);
    ReadItemsMore(EncodeSummary(x) + ([','] + more), x, more);
  }

  lemma ReadOneItem(x: Summary, tail: string)
    requires tail == [] || tail[0] != ','
    ensures ReadItems(EncodeItems([x]) + tail) == Some(([x], tail))
  {
    assert EncodeItems([x]) == EncodeSummary(x);
    ReadSummaryOf(x, tail);
    ReadItemsLast(EncodeSummary(x) + tail, x, tail);
  }

  lemma {:induction false} ReadItemsOf(xs: seq<Summary>, tail: string)
    requires xs != []
    requires tail == [] || tail[0] != ','
    ensures ReadItems(EncodeItems(xs) + tail) == Some((xs, tail))
    decreases |xs|
  {
    if |xs| == 1 {
      assert xs == [xs[0]];
      ReadOneItem(xs[0], tail);
    } else {
      EncodeItemsCons(xs, tail);
      ReadItemsOf(xs[1..], tail);
      ReadConsItem(xs[0], EncodeItems(xs[1..]) + tail);
      assert [xs[0]] + xs[1..] == xs;
    }
  }

  lemma EncodeItemsHead(xs: seq<Summary>)
    requires xs != []
    ensures |EncodeItems(xs)| > 0 && EncodeItems(xs)[0] == '{'
  {
    var e := EncodeSummary(xs[0]);
    assert e == ['{'] + e[1..];
    if |xs| > 1 {
      assert EncodeItems(xs) == e + ("," + EncodeItems(xs[1..]));
    }
  }

  /** Every encoded list of summaries reads back as itself. */
  lemma DecodeEncode(xs: seq<Summary>)
    ensures DecodeSummaries(EncodeSummaries(xs)) == Some(xs)
  {
    if xs != [] {
      var items := EncodeItems(xs);
      var s := EncodeSummaries(xs);
      EncodeItemsHead(xs);
      assert s == ['['] + (items + "]");
      assert s[1] == '{';
      ReadItemsOf(xs, "]");
      assert s[1..] == items + "]";
    }
  }

  /** Different step lists never share a content string. */
  lemma EncodeInjective(xs: seq<Summary>, ys: seq<Summary>)
    requires EncodeSummaries(xs) == EncodeSummaries(ys)
    ensures xs == ys
  {
    DecodeEncode(xs);
    DecodeEncode(ys);
  }
}

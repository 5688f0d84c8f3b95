/**
 * A case study's card on the home page: the text lines, the three rows of
 * chips and the text-shortening helper declared with it.
 */
module CaseStudyCard {
  import opened Records

  // ---------------------------------------------------------------------
  // `truncateText`
  // ---------------------------------------------------------------------

  const Ellipsis := "..."

  function Max(a: int, b: int): int
  {
    if a < b then b else a
  }

  /**
   * `truncateText(text, maxLength)`: "" for null or "", the text itself when
   * it is short enough, otherwise its first `maxLength` characters and "...".
   * `substring` treats a negative end as 0.
   */
  function TruncateText(text: Option<string>, maxLength: int): (r: string)
    ensures |r| <= Max(if text.Some? then |text.value| else 0, Max(0, maxLength) + |Ellipsis|)
  {
    if !Truthy(text) then ""
    else if |text.value| <= maxLength then text.value
    else text.value[..Max(0, maxLength)] + Ellipsis
  }

  lemma TruncateFalsy(text: Option<string>, maxLength: int)
    requires !Truthy(text)
    ensures TruncateText(text, maxLength) == ""
  {
  }

  lemma TruncateShort(t: string, maxLength: int)
    requires |t| <= maxLength
    ensures TruncateText(Some(t), maxLength) == t
  {
  }

  /** A long text keeps its first `maxLength` characters and gains "..."; its length is `maxLength + 3`. */
  lemma TruncateLong(t: string, maxLength: nat)
    requires |t| > maxLength
    ensures |TruncateText(Some(t), maxLength)| == maxLength + 3
    ensures TruncateText(Some(t), maxLength)[..maxLength] == t[..maxLength]
    ensures TruncateText(Some(t), maxLength)[maxLength..] == Ellipsis
  {
  }

  /** Shortening an already shortened text changes nothing. */
  lemma TruncateIdempotent(text: Option<string>, maxLength: int)
    ensures TruncateText(Some(TruncateText(text, maxLength)), maxLength) == TruncateText(text, maxLength)
  {
    var r := TruncateText(text, maxLength);
    if Truthy(text) && |text.value| > maxLength {
      var m := Max(0, maxLength);
      assert |r| == m + 3 > maxLength;
      assert r[..m] == text.value[..m];
    }
  }

  // ---------------------------------------------------------------------
  // Decimal numerals, for the "+N" chip
  // ---------------------------------------------------------------------

  predicate IsDigit(c: char)
  {
    '0' <= c <= '9'
  }

  function DigitChar(d: nat): (c: char)
    requires d < 10
    ensures IsDigit(c)
  {
    ('0' as int + d) as char
  }

  function DigitValue(c: char): (d: nat)
    requires IsDigit(c)
    ensures d < 10
  {
    (c as int - '0' as int) as nat
  }

  /** The decimal numeral JavaScript writes for a non-negative integer. */
  function NatToString(n: nat): (s: string)
    ensures |s| > 0
    ensures forall i | 0 <= i < |s| :: IsDigit(s[i])
    ensures |s| > 1 ==> s[0] != '0'
  {
    if n < 10 then [DigitChar(n)] else NatToString(n / 10) + [DigitChar(n % 10)]
  }

  /** The value of a string of digits. */
  function ParseNat(s: string): nat
    requires forall i | 0 <= i < |s| :: IsDigit(s[i])
  {
    if s == [] then 0 else ParseNat(s[..|s| - 1]) * 10 + DigitValue(s[|s| - 1])
  }

  lemma {:induction false} ParseNatToString(n: nat)
    ensures ParseNat(NatToString(n)) == n
  {
    if n >= 10 {
      var s := NatToString(n);
      assert s[..|s| - 1] == NatToString(n / 10);
      ParseNatToString(n / 10);
    }
  }

  // ---------------------------------------------------------------------
  // Chips
  // ---------------------------------------------------------------------

  datatype ChipColor = Default | Primary | Secondary | Info | Success | Warning

  datatype Chip = Chip(caption: string, color: ChipColor, outlined: bool)

  const PublicAvailability := "Public"

  /** `{value && <Chip label={value} />}`: one chip when the value is truthy, none otherwise. */
  function ChipIf(value: Option<string>, color: ChipColor): (chips: seq<Chip>)
    ensures |chips| <= 1
    ensures |chips| == 1 <==> Truthy(value)
    ensures |chips| == 1 ==> chips[0] == Chip(value.value, color, false)
  {
    if Truthy(value) then [Chip(value.value, color, false)] else []
  }

  /** The availability chip is green exactly for "Public" and amber for any other value. */
  function AvailabilityColor(a: string): (c: ChipColor)
    ensures c == Success <==> a == PublicAvailability
    ensures c != Success ==> c == Warning
  {
    if a == PublicAvailability then Success else Warning
  }

  /** First row: industry, sub-industry, city. */
  function LocationChips(r: CaseStudy): seq<Chip>
  {
    ChipIf(r.industry, Default) + ChipIf(r.subIndustry, Default) + ChipIf(r.city, Default)
  }

  /** Second row: use case, account segment, availability. */
  function TagChips(r: CaseStudy): seq<Chip>
  {
    ChipIf(r.useCase, Secondary) + ChipIf(r.accountSegment, Info)
    + ChipIf(r.availability, if r.availability.Some? then AvailabilityColor(r.availability.value) else Warning)
  }

  /** At most two services are named on the card. */
  const ShownServices := 2

  function Min(a: int, b: int): int
  {
    if a < b then a else b
  }

  /** `"+" + (length - 2)`, the chip standing for the services not named. */
  function OverflowLabel(hidden: nat): string
  {
    "+" + NatToString(hidden)
  }

  /**
   * Third row: the first two services as outlined primary chips, then a
   * "+N" chip when there are more; no row at all for a null or empty array.
   */
  function ServiceChips(r: CaseStudy): (chips: seq<Chip>)
    ensures |chips| <= ShownServices + 1
  {
    if r.awsServices.None? || |r.awsServices.value| == 0 then []
    else
      var s := r.awsServices.value;
      var named := seq(Min(ShownServices, |s|), i requires 0 <= i < Min(ShownServices, |s|) => Chip(s[i], Primary, true));
      named + (if |s| > ShownServices then [Chip(OverflowLabel(|s| - ShownServices), Default, true)] else [])
  }

  /**
   * What `{caseStudy.mrr && <line>}` renders: nothing for null, the number
   * 0 itself for a zero mrr (React prints a number left by `&&`), and the
   * "MRR: $<mrr>K" line for any other value.
   */
  datatype MrrDisplay = MrrLine(amount: int) | BareZero | NoMrr

  function ShowMrr(r: CaseStudy): (m: MrrDisplay)
    ensures m.MrrLine? <==> r.mrr.Some? && r.mrr.value != 0
    ensures m.MrrLine? ==> m.amount == r.mrr.value
    ensures m.BareZero? <==> r.mrr == Some(0)
    ensures m.NoMrr? <==> r.mrr.None?
  {
    if r.mrr.None? then NoMrr else if r.mrr.value == 0 then BareZero else MrrLine(r.mrr.value)
  }

  /** What a card displays. */
  datatype CardView = CardView(
    heading: string,
    clientName: string,
    owner: string,
    mrr: MrrDisplay,
    locationChips: seq<Chip>,
    tagChips: seq<Chip>,
    serviceChips: seq<Chip>)

  function Render(r: CaseStudy): CardView
  {
    CardView(r.heading, r.clientName, r.accountOwner, ShowMrr(r), LocationChips(r), TagChips(r), ServiceChips(r))
  }

  // ---------------------------------------------------------------------
  // What the card promises
  // ---------------------------------------------------------------------

  /** The services shown on a row with services: how many, which, and the overflow count. */
  lemma ServiceChipsSpec(r: CaseStudy)
    requires r.awsServices.Some? && |r.awsServices.value| > 0
    ensures var s, chips := r.awsServices.value, Render(r).serviceChips;
      && |chips| == Min(2, |s|) + (if |s| > 2 then 1 else 0)
      && (forall i | 0 <= i < Min(2, |s|) :: chips[i] == Chip(s[i], Primary, true))
      && (|s| > 2 ==> chips[2].caption == "+" + NatToString(|s| - 2) && !chips[2].color.Primary?)
  {
  }

  /** The named services and the "+N" chip together account for every service. */
  lemma ServiceChipsCountAll(r: CaseStudy)
    requires r.awsServices.Some? && |r.awsServices.value| > 2
    ensures var chips := Render(r).serviceChips;
      var digits := chips[2].caption[1..];
      && (forall i | 0 <= i < |digits| :: IsDigit(digits[i]))
      && 2 + ParseNat(digits) == |r.awsServices.value|
  {
    var n := |r.awsServices.value| - 2;
    assert Render(r).serviceChips[2].caption[1..] == NatToString(n);
    ParseNatToString(n);
  }

  /** A null or empty services array leaves the third row out entirely. */
  lemma NoServicesNoRow(r: CaseStudy)
    requires r.awsServices.None? || r.awsServices.value == []
    ensures Render(r).serviceChips == []
  {
  }

  /** The first row holds one plain chip per truthy column among industry, sub-industry and city. */
  lemma LocationChipsSpec(r: CaseStudy)
    ensures |Render(r).locationChips| == |ChipIf(r.industry, Default)| + |ChipIf(r.subIndustry, Default)| + |ChipIf(r.city, Default)|
    ensures forall c | c in Render(r).locationChips ::
      c.color == Default && !c.outlined && (Some(c.caption) == r.industry || Some(c.caption) == r.subIndustry || Some(c.caption) == r.city)
  {
    var a, b, d := ChipIf(r.industry, Default), ChipIf(r.subIndustry, Default), ChipIf(r.city, Default);
    assert Render(r).locationChips == a + b + d;
    forall c: Chip | c in a + b + d
      ensures c.color == Default && !c.outlined && (Some(c.caption) == r.industry || Some(c.caption) == r.subIndustry || Some(c.caption) == r.city)
    {
      if c in a {
        assert c == a[0];
      } else if c in b {
        assert c == b[0];
      } else {
        assert c in d && c == d[0];
      }
    }
  }

  /** The second row never shows an empty chip, and ends with the coloured availability chip when there is one. */
  lemma TagChipsSpec(r: CaseStudy)
    ensures forall c | c in Render(r).tagChips :: c.caption != ""
    ensures Truthy(r.availability) ==>
      Render(r).tagChips[|Render(r).tagChips| - 1] == Chip(r.availability.value, AvailabilityColor(r.availability.value), false)
  {
  }

  /** A zero mrr gets no "MRR" line but leaves a bare "0" on the card; a missing one shows nothing. */
  lemma ZeroMrrShowsBareZero(r: CaseStudy)
    requires r.mrr == Some(0) || r.mrr == None
    ensures !Render(r).mrr.MrrLine?
    ensures Render(r).mrr == (if r.mrr == None then NoMrr else BareZero)
  {
  }

  /** Five services: "EC2" and "S3" are named and "+3" stands for the rest. */
  lemma FiveServicesExample(r: CaseStudy)
    requires r.awsServices == Some(["EC2", "S3", "Lambda", "DynamoDB", "RDS"])
    ensures Render(r).serviceChips ==
      [Chip("EC2", Primary, true), Chip("S3", Primary, true), Chip("+3", Default, true)]
  {
    var chips := Render(r).serviceChips;
    ServiceChipsSpec(r);
    assert NatToString(3) == "3";
    assert chips[2].caption == "+3";
    assert |chips| == 3;
  }
}

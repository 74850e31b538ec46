// recipes/utils.py: `table_recipes`, the plain-text shopping list.
module Report {

  /** One aggregated row of the export query: the dictionary keys
      `ingredient__name`, `amount__sum` and `ingredient__measurement_unit`. */
  datatype Entry = Entry(name: string, total: int, unit: string)

  /** The first line of the report, followed by an empty line. */
  const TitleLine: string := "Ингредиенты |  Количество | Единицы измерения \n\n"
  /** The separator under the title: 48 underscores, no line break. */
  const Separator: string := "________________________________________________"
  const Header: string := TitleLine + Separator

  // ---------------------------------------------------------------------
  // Python's str() of an int, in base 10
  // ---------------------------------------------------------------------

  function DigitChar(d: nat): (c: char)
    requires d < 10
    ensures '0' <= c <= '9'
  {
    "0123456789"[d]
  }

  function DigitValue(c: char): nat {
    if '0' <= c <= '9' then (c as int - '0' as int) as nat else 0
  }

  function NatToDecimal(n: nat): (s: string)
    decreases n
  {
    if n < 10 then [DigitChar(n)] else NatToDecimal(n / 10) + [DigitChar(n % 10)]
  }

  /** `str(n)`: a minus sign for negative values, then the decimal digits. */
  function IntToDecimal(n: int): string {
    if n < 0 then "-" + NatToDecimal(-n) else NatToDecimal(n)
  }

  /** Reads back a string of decimal digits. */
  function ParseDigits(s: string): nat {
    if |s| == 0 then 0 else ParseDigits(s[..|s| - 1]) * 10 + DigitValue(s[|s| - 1])
  }

  /** Reads back an optionally signed decimal, as `int()` would. */
  function ParseDecimal(s: string): int {
    if |s| > 0 && s[0] == '-' then -(ParseDigits(s[1..]) as int) else ParseDigits(s)
  }

  predicate AllDigits(s: string) {
    forall i :: 0 <= i < |s| ==> '0' <= s[i] <= '9'
  }

  /** The decimal form of a natural number is a non-empty string of digits
      that reads back as the number. */
  lemma {:induction false} NatToDecimalRoundTrip(n: nat)
    ensures |NatToDecimal(n)| > 0 && AllDigits(NatToDecimal(n))
    ensures ParseDigits(NatToDecimal(n)) == n
    decreases n
  {
    var s := NatToDecimal(n);
    if n < 10 {
      assert s == [DigitChar(n)];
      assert s[..0] == [];
      assert DigitValue(DigitChar(n)) == n by {
        assert "0123456789"[n] as int - '0' as int == n;
      }
    } else {
      NatToDecimalRoundTrip(n / 10);
      var p := NatToDecimal(n / 10);
      assert s == p + [DigitChar(n % 10)];
      assert s[..|s| - 1] == p;
      assert DigitValue(DigitChar(n % 10)) == n % 10 by {
        assert "0123456789"[n % 10] as int - '0' as int == n % 10;
      }
    }
  }

  lemma ParseSigned(digits: string)
    requires |digits| > 0 && AllDigits(digits)
    ensures ParseDecimal("-" + digits) == -(ParseDigits(digits) as int)
    ensures ParseDecimal(digits) == ParseDigits(digits)
  {
    assert ("-" + digits)[0] == '-';
    assert ("-" + digits)[1..] == digits;
  }

  /** `int(str(n)) == n` for the amounts the report prints. */
  lemma IntToDecimalRoundTrip(n: int)
    ensures ParseDecimal(IntToDecimal(n)) == n
  {
    var m: nat := if n < 0 then -n else n;
    NatToDecimalRoundTrip(m);
    ParseSigned(NatToDecimal(m));
  }

  // ---------------------------------------------------------------------
  // The report
  // ---------------------------------------------------------------------

  /** The text appended for one entry: `f"\n{name} | {sum} | {unit} \n"`. */
  function Segment(e: Entry): string {
    "\n" + e.name + " | " + IntToDecimal(e.total) + " | " + e.unit + " \n"
  }

  /** The strings of `parts` joined with nothing between them. */
  function Concat(parts: seq<string>): string {
    if |parts| == 0 then "" else Concat(parts[..|parts| - 1]) + parts[|parts| - 1]
  }

  /** The segment of each entry, in input order. */
  function SegmentList(entries: seq<Entry>): (r: seq<string>)
    ensures |r| == |entries|
  {
    seq(|entries|, i requires 0 <= i < |entries| => Segment(entries[i]))
  }

  /** The segments of all entries, in input order. */
  function Segments(entries: seq<Entry>): string {
    Concat(SegmentList(entries))
  }

  /** The value `table_recipes` returns. */
  function Render(entries: seq<Entry>): string {
    Header + Segments(entries)
  }

  /** `table_recipes`: starts from the header and appends one segment per
      entry, in the loop the source runs. */
  method TableRecipes(entries: seq<Entry>) returns (table: string)
    ensures table == Render(entries)
  {
    table := TitleLine;
    table := table + Separator;
    for i := 0 to |entries|
      invariant table == Header + Segments(entries[..i])
    {
      RenderPrefix(entries, i);
      table := table + Segment(entries[i]);
    }
    assert entries[..|entries|] == entries;
  }

  /** Every report begins with the title line and then the separator. */
  lemma RenderStartsWithHeader(entries: seq<Entry>)
    ensures |Render(entries)| >= |TitleLine| + |Separator|
    ensures Render(entries)[..|TitleLine|] == TitleLine
    ensures Render(entries)[|TitleLine|..|TitleLine| + |Separator|] == Separator
  {
  }

  /** With no entries the report is exactly the header. */
  lemma RenderEmpty()
    ensures Render([]) == TitleLine + Separator
  {
  }

  lemma ConcatSingleton(part: string)
    ensures Concat([part]) == part
  {
    assert [part][..0] == [];
    assert Concat([]) == "";
    assert "" + part == part;
  }

  lemma {:induction false} ConcatAppend(xs: seq<string>, ys: seq<string>)
    ensures Concat(xs + ys) == Concat(xs) + Concat(ys)
    decreases |ys|
  {
    if |ys| == 0 {
      assert xs + ys == xs;
    } else {
      var init := ys[..|ys| - 1];
      assert (xs + ys)[..|xs + ys| - 1] == xs + init;
      ConcatAppend(xs, init);
    }
  }

  /** Segments distribute over concatenation of the entry lists. */
  lemma SegmentsAppend(xs: seq<Entry>, ys: seq<Entry>)
    ensures Segments(xs + ys) == Segments(xs) + Segments(ys)
  {
    assert SegmentList(xs + ys) == SegmentList(xs) + SegmentList(ys);
    ConcatAppend(SegmentList(xs), SegmentList(ys));
  }

  /** Rendering distributes over concatenation: `render(xs + ys)` is
      `render(xs)` followed by the segments of `ys`, so nothing is reordered,
      merged or dropped. */
  lemma RenderAppend(xs: seq<Entry>, ys: seq<Entry>)
    ensures Render(xs + ys) == Render(xs) + Segments(ys)
  {
    SegmentsAppend(xs, ys);
  }

  /** Appending an entry appends exactly its segment,
      `"\n" + name + " | " + str(total) + " | " + unit + " \n"`. */
  lemma RenderSnoc(entries: seq<Entry>, e: Entry)
    ensures Render(entries + [e]) == Render(entries) + Segment(e)
  {
    SegmentsAppend(entries, [e]);
    assert SegmentList([e]) == [Segment(e)];
    ConcatSingleton(Segment(e));
    assert Header + (Segments(entries) + Segment(e)) == (Header + Segments(entries)) + Segment(e);
  }

  lemma RenderPrefix(entries: seq<Entry>, i: nat)
    requires i < |entries|
    ensures Render(entries[..i + 1]) == Render(entries[..i]) + Segment(entries[i])
  {
    assert entries[..i + 1] == entries[..i] + [entries[i]];
    RenderSnoc(entries[..i], entries[i]);
  }
}

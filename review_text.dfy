/**
 * The per-review string operations of the review-processing library: the
 * buyer table lookup, the marker searches, and the three in-place text
 * transforms (lower-casing an attachment name, deleting "http", and
 * appending a sentiment marker).
 */
module ReviewText {

  /** The size of every `Review` field buffer. */
  const MAX_LENGTH: nat := 256

  /** A row of the buyer table; the table ends with a NULL marker row. */
  datatype BuyerRow = Row(username: string, productname: string) | EndMarker

  const BUYERS: seq<BuyerRow> := [Row("John", "Laptop"), Row("Mary", "Phone"), Row("Ann", "Book"), EndMarker]

  const PROFANITY: string := "@#$%"
  const PROPAGANDA_UP: string := "+++"
  const PROPAGANDA_DOWN: string := "---"
  const LINK: string := "http"

  /** `(u, p)` is a row of `table` with no end marker before it. */
  ghost predicate Listed(table: seq<BuyerRow>, u: string, p: string) {
    exists k :: 0 <= k < |table| && table[k] == Row(u, p) && forall m :: 0 <= m < k ==> table[m].Row?
  }

  /** The table scan of `is_buyer`, from row `i` on; it stops at the end marker. */
  function ScanBuyers(table: seq<BuyerRow>, u: string, p: string, i: nat): (r: bool)
    requires i <= |table|
    requires forall m :: 0 <= m < i ==> table[m].Row? && table[m] != Row(u, p)
    ensures r <==> Listed(table, u, p)
    decreases |table| - i
  {
    if i == |table| || table[i].EndMarker? then
      assert forall k :: 0 <= k < |table| && table[k] == Row(u, p) ==> i < k && !table[i].Row?;
      false
    else if table[i] == Row(u, p) then true
    else ScanBuyers(table, u, p, i + 1)
  }

  function IsBuyer(username: string, productname: string): (r: bool)
    ensures r <==> Listed(BUYERS, username, productname)
  {
    ScanBuyers(BUYERS, username, productname, 0)
  }

  /** The buyer table holds exactly three pairs. */
  lemma IsBuyerExactly(username: string, productname: string)
    ensures IsBuyer(username, productname) <==>
      || (username == "John" && productname == "Laptop")
      || (username == "Mary" && productname == "Phone")
      || (username == "Ann" && productname == "Book")
  {
    var r := Row(username, productname);
    if IsBuyer(username, productname) {
      var k :| 0 <= k < |BUYERS| && BUYERS[k] == r && forall m :: 0 <= m < k ==> BUYERS[m].Row?;
      assert BUYERS[3] == EndMarker;
    }
  }

  /** `pat` occurs in `text` starting at position `i`. */
  predicate OccursAt(text: string, pat: string, i: nat) {
    i + |pat| <= |text| && text[i..i + |pat|] == pat
  }

  ghost predicate Contains(text: string, pat: string) {
    exists i: nat :: OccursAt(text, pat, i)
  }

  /** `strstr` from position `from`: the first occurrence at or after it, or -1. */
  function Search(text: string, pat: string, from: nat): (r: int)
    ensures r == -1 || (from <= r && OccursAt(text, pat, r))
    ensures forall k: nat :: from <= k && (r == -1 || k < r) ==> !OccursAt(text, pat, k)
    decreases |text| - from
  {
    if from + |pat| > |text| then -1
    else if text[from..from + |pat|] == pat then from
    else Search(text, pat, from + 1)
  }

  /** The first occurrence of `pat` in `text`, or -1 when there is none. */
  function Strstr(text: string, pat: string): (r: int)
    ensures r < 0 <==> !Contains(text, pat)
    ensures 0 <= r ==> OccursAt(text, pat, r) && forall k: nat :: k < r ==> !OccursAt(text, pat, k)
  {
    Search(text, pat, 0)
  }

  function ContainsProfanity(text: string): (b: bool)
    ensures b <==> Contains(text, PROFANITY)
  {
    Strstr(text, PROFANITY) >= 0
  }

  function ContainsPoliticalPropaganda(text: string): (b: bool)
    ensures b <==> Contains(text, PROPAGANDA_UP) || Contains(text, PROPAGANDA_DOWN)
  {
    Strstr(text, PROPAGANDA_UP) >= 0 || Strstr(text, PROPAGANDA_DOWN) >= 0
  }

  predicate IsUpper(c: char) { 'A' <= c <= 'Z' }

  predicate IsLower(c: char) { 'a' <= c <= 'z' }

  /** `tolower` in the C locale: only ASCII capitals change. */
  function ToLower(c: char): (d: char)
    ensures !IsUpper(d)
    ensures IsUpper(c) ==> IsLower(d) && d as int - 'a' as int == c as int - 'A' as int
    ensures !IsUpper(c) ==> d == c
  {
    if IsUpper(c) then (c as int + 32) as char else c
  }

  /** The text with every character lower-cased. */
  function Lowercased(s: string): (r: string)
    ensures |r| == |s|
    ensures forall i :: 0 <= i < |s| ==> r[i] == ToLower(s[i])
  {
    if s == [] then [] else [ToLower(s[0])] + Lowercased(s[1..])
  }

  /** `resize_picture`: lower-cases the attachment name character by character. */
  method ResizePicture(attachment: string) returns (r: string)
    ensures r == Lowercased(attachment)
  {
    r := attachment;
    var i := 0;
    while i < |r|
      invariant 0 <= i <= |r| == |attachment|
      invariant forall k :: 0 <= k < i ==> r[k] == ToLower(attachment[k])
      invariant forall k :: i <= k < |r| ==> r[k] == attachment[k]
    {
      r := r[i := ToLower(r[i])];
      i := i + 1;
    }
  }

  /** Lower-casing twice is lower-casing once, and leaves no capital letter. */
  lemma LowercasedIdempotent(s: string)
    ensures Lowercased(Lowercased(s)) == Lowercased(s)
    ensures forall i :: 0 <= i < |s| ==> !IsUpper(Lowercased(s)[i])
  {
  }

  /**
   * The text after `remove_competitor_links`: the first "http" is deleted
   * and the search starts again on the shorter text, so a deletion that
   * closes up a new "http" removes that one too.
   */
  function StripLinks(text: string): (r: string)
    ensures !Contains(r, LINK)
    ensures |r| <= |text| && (|text| - |r|) % 4 == 0
    ensures !Contains(text, LINK) ==> r == text
    decreases |text|
  {
    var pos := Strstr(text, LINK);
    if pos < 0 then text else StripLinks(text[..pos] + text[pos + 4..])
  }

  /** `remove_competitor_links`: delete the first "http" until none is left. */
  method RemoveCompetitorLinks(text: string) returns (r: string)
    ensures r == StripLinks(text)
  {
    r := text;
    var pos := Strstr(r, LINK);
    while pos >= 0
      invariant StripLinks(r) == StripLinks(text)
      invariant pos == Strstr(r, LINK)
      decreases |r|
    {
      r := r[..pos] + r[pos + 4..];
      pos := Strstr(r, LINK);
    }
  }

  function CountUpper(s: string): (n: nat)
    ensures n <= |s|
  {
    if s == [] then 0 else CountUpper(s[..|s| - 1]) + (if IsUpper(s[|s| - 1]) then 1 else 0)
  }

  function CountLower(s: string): (n: nat)
    ensures n <= |s|
  {
    if s == [] then 0 else CountLower(s[..|s| - 1]) + (if IsLower(s[|s| - 1]) then 1 else 0)
  }

  /** The marker `analyze_sentiment` appends for the given letter counts. */
  function Marker(upper: nat, lower: nat): char {
    if upper > lower then '+' else if lower > upper then '-' else '='
  }

  /** The text after `analyze_sentiment`. */
  function WithSentiment(text: string): string {
    text + [Marker(CountUpper(text), CountLower(text))]
  }

  /**
   * `analyze_sentiment`: counts capitals and small letters, then appends
   * '+', '-' or '='. The appended character must fit the field's buffer.
   */
  method AnalyzeSentiment(text: string) returns (r: string)
    requires |text| + 1 < MAX_LENGTH
    ensures |r| == |text| + 1 && r[..|text|] == text
    ensures r[|text|] == '+' <==> CountUpper(text) > CountLower(text)
    ensures r[|text|] == '-' <==> CountLower(text) > CountUpper(text)
    ensures r[|text|] == '=' <==> CountUpper(text) == CountLower(text)
    ensures r == WithSentiment(text)
  {
    var upper, lower := 0, 0;
    var i := 0;
    while i < |text|
      invariant 0 <= i <= |text|
      invariant upper == CountUpper(text[..i]) && lower == CountLower(text[..i])
    {
      assert text[..i + 1][..i] == text[..i];
      if IsUpper(text[i]) {
        upper := upper + 1;
      }
      if IsLower(text[i]) {
        lower := lower + 1;
      }
      i := i + 1;
    }
    assert text[..i] == text;
    r := text + [Marker(upper, lower)];
  }
}

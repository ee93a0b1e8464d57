/** The content URL under which the web client serves an attachment,
    `/web/content/<id>/<name>`: how it is written (the id rendered in decimal,
    as an f-string renders an integer, the name as it is), and a reading of
    such a URL back into an id and a name. The reading is this model's own:
    it stands for no particular route of the web client, and it serves to
    show that the written URL names exactly one attachment. */
module WebContent {

  import opened Wrappers

  const ContentPrefix: string := "/web/content/"

  predicate IsDigit(c: char) {
    '0' <= c <= '9'
  }

  predicate AllDigits(s: string) {
    forall i :: 0 <= i < |s| ==> IsDigit(s[i])
  }

  function DigitChar(d: nat): (c: char)
    requires d < 10
    ensures IsDigit(c)
  {
    ('0' as int + d) as char
  }

  function DigitValue(c: char): (d: nat)
    requires IsDigit(c)
    ensures d < 10 && DigitChar(d) == c
  {
    c as int - '0' as int
  }

  /** The decimal rendering of `n`: a non-empty string of digits, without a
      leading zero unless `n` is zero itself. */
  function Decimal(n: nat): (s: string)
    ensures |s| > 0 && AllDigits(s)
    ensures s[0] == '0' ==> n == 0 && s == "0"
    decreases n
  {
    if n < 10 then [DigitChar(n)] else Decimal(n / 10) + [DigitChar(n % 10)]
  }

  /** A decimal numeral as `Decimal` writes it: digits only, not empty,
      and no leading zero unless it is "0" itself. */
  predicate Canonical(s: string) {
    |s| > 0 && AllDigits(s) && (s[0] == '0' ==> |s| == 1)
  }

  /** The number a string of decimal digits denotes. */
  function DecimalValue(s: string): nat
    requires AllDigits(s)
    decreases |s|
  {
    if s == [] then 0 else DecimalValue(s[..|s| - 1]) * 10 + DigitValue(s[|s| - 1])
  }

  lemma {:induction false} DecimalRoundTrip(n: nat)
    ensures DecimalValue(Decimal(n)) == n
    decreases n
  {
    var s := Decimal(n);
    if n >= 10 {
      assert s[..|s| - 1] == Decimal(n / 10);
      DecimalRoundTrip(n / 10);
    }
  }

  lemma {:induction false} LeadingDigitPositive(s: string)
    requires |s| > 0 && AllDigits(s) && s[0] != '0'
    ensures DecimalValue(s) > 0
    decreases |s|
  {
    if |s| > 1 {
      LeadingDigitPositive(s[..|s| - 1]);
    }
  }

  /** Every canonical numeral is the rendering of the number it denotes. */
  lemma {:induction false} CanonicalRoundTrip(s: string)
    requires Canonical(s)
    ensures Decimal(DecimalValue(s)) == s
    decreases |s|
  {
    if |s| > 1 {
      var p := s[..|s| - 1];
      LeadingDigitPositive(p);
      CanonicalRoundTrip(p);
      var n := DecimalValue(s);
      assert n / 10 == DecimalValue(p) && n % 10 == DigitValue(s[|s| - 1]);
      assert s == p + [s[|s| - 1]];
    }
  }

  /** The position of the first `c` in `s`, or `|s|` when there is none. */
  function IndexOf(s: string, c: char): (k: nat)
    ensures k <= |s|
    ensures k < |s| ==> s[k] == c
    ensures forall j :: 0 <= j < k ==> s[j] != c
  {
    if s == [] || s[0] == c then 0 else 1 + IndexOf(s[1..], c)
  }

  /** Where an attachment is addressed: its id and its file name. */
  datatype ContentRef = ContentRef(id: nat, name: string)

  /** `f"/web/content/{id}/{name}"`. */
  function Url(id: nat, name: string): string {
    ContentPrefix + Decimal(id) + "/" + name
  }

  /** Reads `/web/content/<id>/<name>`: the prefix, a canonical decimal id
      up to the first `/`, and the remainder as the name. */
  function ParseUrl(u: string): Option<ContentRef> {
    if |u| < |ContentPrefix| || u[..|ContentPrefix|] != ContentPrefix then None
    else
      var rest := u[|ContentPrefix|..];
      var k := IndexOf(rest, '/');
      if k == |rest| || !Canonical(rest[..k]) then None
      else Some(ContentRef(DecimalValue(rest[..k]), rest[k + 1..]))
  }

  /** Every URL the document writes is read back as the id and the name it
      was written from. */
  lemma UrlRoundTrip(id: nat, name: string)
    ensures ParseUrl(Url(id, name)) == Some(ContentRef(id, name))
  {
    var u := Url(id, name);
    var digits := Decimal(id);
    var rest := u[|ContentPrefix|..];
    assert u[..|ContentPrefix|] == ContentPrefix;
    assert rest == digits + "/" + name;
    assert forall j :: 0 <= j < |digits| ==> rest[j] == digits[j] && IsDigit(digits[j]);
    assert rest[|digits|] == '/';
    var k := IndexOf(rest, '/');
    assert k == |digits|;
    assert rest[..k] == digits;
    assert rest[k + 1..] == name;
    DecimalRoundTrip(id);
  }

  /** Conversely, a URL that is read as an id and a name is exactly the URL
      written from them: together with `UrlRoundTrip`, a URL and the
      attachment it names determine each other. */
  lemma ParsedUrlIsWritten(u: string)
    requires ParseUrl(u).Some?
    ensures Url(ParseUrl(u).value.id, ParseUrl(u).value.name) == u
  {
    var rest := u[|ContentPrefix|..];
    var k := IndexOf(rest, '/');
    CanonicalRoundTrip(rest[..k]);
    assert rest == rest[..k] + "/" + rest[k + 1..];
    assert u == u[..|ContentPrefix|] + rest;
  }
}

/**
 * The names of the two downloads: `pixel_art_<w>x<h>.png` for the pixel art
 * and `pixel_art_display_<w>x<h>.png` for the display version, where each
 * number is written the way Python formats an int: decimal digits without
 * leading zeros.
 *
 * `ParseFileName` reads the two numbers back out of a name; the round-trip
 * lemmas show that a name always tells which size it was made for.
 */
module FileNames {

  datatype Option<T> = None | Some(value: T)

  const PixelArtPrefix: string := "pixel_art_"
  const DisplayPrefix: string := "pixel_art_display_"
  const Extension: string := ".png"

  predicate IsDigit(c: char) {
    '0' <= c <= '9'
  }

  predicate AllDigits(s: string) {
    forall i | 0 <= i < |s| :: IsDigit(s[i])
  }

  function DigitValue(c: char): nat
    requires IsDigit(c)
  {
    c as int - '0' as int
  }

  function DigitChar(d: nat): (c: char)
    requires d < 10
    ensures IsDigit(c) && DigitValue(c) == d
  {
    ('0' as int + d) as char
  }

  /** The decimal text of `n`: at least one digit, a leading '0' only for zero itself, and zero is just "0". */
  function Decimal(n: nat): (s: string)
    ensures |s| >= 1 && AllDigits(s)
    ensures s[0] == '0' <==> n == 0
    ensures s[0] == '0' ==> |s| == 1
  {
    if n < 10 then [DigitChar(n)] else Decimal(n / 10) + [DigitChar(n % 10)]
  }

  /** The number a string of decimal digits denotes. */
  function ValueOf(s: string): nat
    requires AllDigits(s)
  {
    if s == [] then 0 else ValueOf(s[..|s| - 1]) * 10 + DigitValue(s[|s| - 1])
  }

  lemma {:induction false} DecimalRoundTrip(n: nat)
    ensures ValueOf(Decimal(n)) == n
  {
    if n >= 10 {
      var s := Decimal(n);
      assert s[..|s| - 1] == Decimal(n / 10);
      DecimalRoundTrip(n / 10);
    }
  }

  function ParseDecimal(s: string): Option<nat> {
    if |s| >= 1 && AllDigits(s) then Some(ValueOf(s)) else None
  }

  /** The position of the first 'x' in `s`, or `|s|` when there is none. */
  function IndexOfX(s: string): (i: nat)
    ensures i <= |s|
    ensures i < |s| ==> s[i] == 'x'
    ensures forall j | 0 <= j < i :: s[j] != 'x'
  {
    if s == [] || s[0] == 'x' then 0 else 1 + IndexOfX(s[1..])
  }

  /** prefix + w + "x" + h + ".png"; the size can always be read back from it. */
  function FileName(prefix: string, w: nat, h: nat): (name: string)
    ensures ParseFileName(prefix, name) == Some((w, h))
  {
    FileNameRoundTrip(prefix, w, h);
    prefix + Decimal(w) + "x" + Decimal(h) + Extension
  }

  /** The name offered for the exact-size pixel art. */
  function PixelArtFileName(w: nat, h: nat): (name: string)
    ensures ParseFileName(PixelArtPrefix, name) == Some((w, h))
  {
    FileName(PixelArtPrefix, w, h)
  }

  /** The name offered for the upscaled display image. */
  function DisplayFileName(w: nat, h: nat): (name: string)
    ensures ParseFileName(DisplayPrefix, name) == Some((w, h))
  {
    FileName(DisplayPrefix, w, h)
  }

  /** The two numbers of a text of the form w + "x" + h, if it has that form. */
  function ParseSize(body: string): Option<(nat, nat)> {
    var i := IndexOfX(body);
    if i == |body| then None
    else
      match (ParseDecimal(body[..i]), ParseDecimal(body[i + 1..]))
      case (Some(w), Some(h)) => Some((w, h))
      case _ => None
  }

  /** The width and height written in a name of the form prefix + w + "x" + h + ".png", if it has that form. */
  function ParseFileName(prefix: string, name: string): Option<(nat, nat)> {
    if |name| < |prefix| + |Extension| || name[..|prefix|] != prefix || name[|name| - |Extension|..] != Extension then
      None
    else
      ParseSize(name[|prefix|..|name| - |Extension|])
  }

  /** The first 'x' after a run of digits is the one that ends the run. */
  lemma IndexOfXAfterDigits(a: string, rest: string)
    requires AllDigits(a) && |rest| >= 1 && rest[0] == 'x'
    ensures IndexOfX(a + rest) == |a|
  {
    var s := a + rest;
    assert forall j | 0 <= j < |a| :: s[j] == a[j];
    assert s[|a|] == 'x';
  }

  lemma {:induction false} SizeRoundTrip(w: nat, h: nat)
    ensures ParseSize(Decimal(w) + "x" + Decimal(h)) == Some((w, h))
  {
    var a, b := Decimal(w), Decimal(h);
    var body := a + "x" + b;
    assert body == a + ("x" + b);
    IndexOfXAfterDigits(a, "x" + b);
    assert body[..|a|] == a;
    assert body[|a| + 1..] == b;
    DecimalRoundTrip(w);
    DecimalRoundTrip(h);
  }

  lemma {:induction false} FileNameRoundTrip(prefix: string, w: nat, h: nat)
    ensures ParseFileName(prefix, prefix + Decimal(w) + "x" + Decimal(h) + Extension) == Some((w, h))
  {
    var body := Decimal(w) + "x" + Decimal(h);
    var name := prefix + Decimal(w) + "x" + Decimal(h) + Extension;
    assert name == prefix + body + Extension;
    assert name[..|prefix|] == prefix;
    assert name[|name| - |Extension|..] == Extension;
    assert name[|prefix|..|name| - |Extension|] == body;
    SizeRoundTrip(w, h);
  }

  /** Different sizes never share a file name. */
  lemma FileNameInjective(prefix: string, w1: nat, h1: nat, w2: nat, h2: nat)
    requires FileName(prefix, w1, h1) == FileName(prefix, w2, h2)
    ensures w1 == w2 && h1 == h2
  {
  }

  /**
   * Each download name gives back the size it was made for, and the two
   * download names of one result always differ.
   */
  lemma DownloadNames(w: nat, h: nat, dw: nat, dh: nat)
    ensures ParseFileName(PixelArtPrefix, PixelArtFileName(w, h)) == Some((w, h))
    ensures ParseFileName(DisplayPrefix, DisplayFileName(dw, dh)) == Some((dw, dh))
    ensures PixelArtFileName(w, h) != DisplayFileName(dw, dh)
  {
    assert PixelArtFileName(w, h)[|PixelArtPrefix|] == Decimal(w)[0];
    assert DisplayFileName(dw, dh)[|PixelArtPrefix|] == 'd';
  }
}

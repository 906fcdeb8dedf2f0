/** The object key under which a QR image is stored
    (api/main.py:137-139): `qr_codes/<safe_url>_<timestamp>.png`. */
module Naming {
  import opened Wrappers
  import opened UrlSplit
  import opened Timestamps

  /** The longest sanitized URL fragment kept. */
  const MaxFragment: nat := 50
  const KeyPrefix := "qr_codes/"
  const KeyExtension := ".png"

  /** `\w`, restricted to ASCII: letters, digits and `_`. */
  predicate IsWordChar(c: char)
  {
    ('a' <= c <= 'z') || ('A' <= c <= 'Z') || ('0' <= c <= '9') || c == '_'
  }

  /** The characters the pattern `[^\w\-_]` leaves alone. */
  predicate IsSafe(c: char)
  {
    IsWordChar(c) || c == '-' || c == '_'
  }

  predicate AllSafe(s: string)
  {
    forall i :: 0 <= i < |s| ==> IsSafe(s[i])
  }

  /** The substitution that makes a URL fragment key-safe: every character
      other than a word character, `-` or `_` becomes one `_`,
      every safe one stays where it is. */
  function Sanitize(s: string): (r: string)
    ensures |r| == |s|
    ensures AllSafe(r)
    ensures forall i :: 0 <= i < |s| ==> r[i] == (if IsSafe(s[i]) then s[i] else '_')
  {
    seq(|s|, i requires 0 <= i < |s| => if IsSafe(s[i]) then s[i] else '_')
  }

  function Min(a: nat, b: nat): nat
  {
    if a <= b then a else b
  }

  /** `safe_url`: the last `//`-segment of the URL, sanitized, cut to fifty
      characters. */
  function Fragment(url: string): (r: string)
    ensures |r| == Min(MaxFragment, |LastSegment(url)|)
    ensures AllSafe(r)
  {
    var s := Sanitize(LastSegment(url));
    s[..Min(MaxFragment, |s|)]
  }

  /** `file_name`: the object key for `url` at clock reading `now`. */
  function Key(url: string, now: Timestamp): (k: string)
    requires Valid(now)
    ensures KeyPrefix <= k
    ensures |k| == |KeyPrefix| + |Fragment(url)| + 1 + 22 + |KeyExtension|
    ensures |k| <= |KeyPrefix| + MaxFragment + 1 + 22 + |KeyExtension|
    ensures k[|k| - |KeyExtension|..] == KeyExtension
  {
    KeyPrefix + Fragment(url) + "_" + Render(now) + KeyExtension
  }

  /** Splits a key back into its fragment and its clock reading, reading the
      fixed-width suffix from the end (the fragment may itself hold `_` and
      digits). */
  function ParseKey(k: string): (r: Option<(string, Timestamp)>)
  {
    var n := |k|;
    if n >= |KeyPrefix| + 1 + 22 + |KeyExtension|
       && k[..|KeyPrefix|] == KeyPrefix && k[n - |KeyExtension|..] == KeyExtension
       && k[n - 27] == '_'
    then
      match Parse(k[n - 26..n - 4])
      case None => None
      case Some(t) => Some((k[|KeyPrefix|..n - 27], t))
    else None
  }

  /** Re-sanitizing changes nothing. */
  lemma SanitizeIdempotent(s: string)
    ensures Sanitize(Sanitize(s)) == Sanitize(s)
  {

  }

  /** A string already made of safe characters is its own sanitization. */
  lemma SanitizeKeepsSafe(s: string)
    requires AllSafe(s)
    ensures Sanitize(s) == s
  {
  }

  /** Truncating and sanitizing commute, so the fragment is the
      sanitization of the URL segment's first fifty characters. */
  lemma FragmentIsSanitizedPrefix(url: string)
    ensures Fragment(url) == Sanitize(LastSegment(url)[..Min(MaxFragment, |LastSegment(url)|)])
  {
  }

  /** Parsing a key recovers the fragment and the clock reading. */
  lemma ParseKeyOfKey(url: string, now: Timestamp)
    requires Valid(now)
    ensures ParseKey(Key(url, now)) == Some((Fragment(url), now))
  {
    var f, ts := Fragment(url), Render(now);
    var k := Key(url, now);
    var n := |k|;
    assert k[..|KeyPrefix|] == KeyPrefix;
    assert k[n - 27] == '_';
    assert k[n - 26..n - 4] == ts;
    assert k[|KeyPrefix|..n - 27] == f;
    ParseRender(now);
  }

  /** Every string `ParseKey` accepts is the key built from its parts. */
  lemma KeyOfParseKey(k: string)
    requires ParseKey(k).Some?
    ensures var (f, t) := ParseKey(k).value;
      k == KeyPrefix + f + "_" + Render(t) + KeyExtension
  {
    var n := |k|;
    RenderParse(k[n - 26..n - 4]);
    assert k == k[..|KeyPrefix|] + k[|KeyPrefix|..n - 27] + [k[n - 27]] + k[n - 26..n - 4] + k[n - 4..];
  }

  /** Two keys coincide exactly when their fragments and their clock
      readings do: two different readings give two different keys whatever
      the two URLs are. */
  lemma KeyEquality(url1: string, t1: Timestamp, url2: string, t2: Timestamp)
    requires Valid(t1) && Valid(t2)
    ensures Key(url1, t1) == Key(url2, t2) <==> Fragment(url1) == Fragment(url2) && t1 == t2
  {
    ParseKeyOfKey(url1, t1);
    ParseKeyOfKey(url2, t2);
  }

  /** `https://example.com/` (how pydantic 2 writes `https://example.com`) keeps `example.com/`, whose `.` and `/` both
      become `_`. */
  lemma ExampleFragment()
    ensures Fragment("https://example.com/") == "example_com_"
  {
    ExampleSegment();
    ExampleSanitize();
  }

  lemma ExampleSanitize()
    ensures Sanitize("example.com/") == "example_com_"
  {
  }

  /** The key of that URL at clock reading `now`. */
  lemma ExampleKey(now: Timestamp)
    requires Valid(now)
    ensures Key("https://example.com/", now) == "qr_codes/example_com__" + Render(now) + ".png"
  {
    ExampleFragment();
    ExampleKeyOf("https://example.com/", now);
  }

  /** A URL whose fragment is `example_com_` gets this key. */
  lemma ExampleKeyOf(url: string, now: Timestamp)
    requires Valid(now) && Fragment(url) == "example_com_"
    ensures Key(url, now) == "qr_codes/example_com__" + Render(now) + ".png"
  {
    assert KeyPrefix + "example_com_" + "_" == "qr_codes/example_com__";
  }
}

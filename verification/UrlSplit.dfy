/** Python's `str.split` with the separator `//`, and the last segment it
    yields, from which the object key is named (api/main.py:138). */
module UrlSplit {

  /** True when `s` holds the separator `//` starting at index `i`. */
  predicate SepAt(s: string, i: int)
  {
    0 <= i && i + 1 < |s| && s[i] == '/' && s[i + 1] == '/'
  }

  /** True when the separator occurs nowhere in `s`. */
  predicate NoSep(s: string)
  {
    forall i :: 0 <= i < |s| - 1 ==> !SepAt(s, i)
  }

  /** Python's `str.split` with the separator `//`: scans left to right; each separator found ends the
      current segment and is skipped whole, so separators never overlap. */
  function Split(s: string): (parts: seq<string>)
    ensures |parts| >= 1
  {
    if |s| < 2 then [s]
    else if s[0] == '/' && s[1] == '/' then [""] + Split(s[2..])
    else
      var rest := Split(s[1..]);
      [[s[0]] + rest[0]] + rest[1..]
  }

  /** `'//'.join(parts)`, the inverse of `Split`. */
  function Join(parts: seq<string>): string
    requires |parts| >= 1
  {
    if |parts| == 1 then parts[0] else parts[0] + "//" + Join(parts[1..])
  }

  /** The decomposition `Split` chooses: no segment holds the separator, and
      no segment but the last ends in `/` (otherwise the scan would have met
      the separator one character earlier). */
  predicate Canonical(parts: seq<string>)
  {
    && |parts| >= 1
    && (forall k :: 0 <= k < |parts| ==> NoSep(parts[k]))
    && (forall k :: 0 <= k < |parts| - 1 ==> parts[k] == [] || parts[k][|parts[k]| - 1] != '/')
  }

  /** The text after the last separator, or the whole string when there is none. */
  function LastSegment(url: string): string
  {
    var parts := Split(url);
    parts[|parts| - 1]
  }

  /** The first segment is a prefix of the joined string. */
  lemma JoinStartsWithHead(parts: seq<string>)
    requires |parts| >= 1
    ensures parts[0] <= Join(parts)
  {
  }

  /** Joining the segments back with `//` gives the original string. */
  lemma {:induction false} JoinSplit(s: string)
    ensures Join(Split(s)) == s
  {
    if |s| < 2 {
    } else if s[0] == '/' && s[1] == '/' {
      JoinSplit(s[2..]);
      assert Split(s)[1..] == Split(s[2..]);
    } else {
      var rest := Split(s[1..]);
      JoinSplit(s[1..]);
      if |rest| == 1 {
        assert Join(Split(s)) == [s[0]] + rest[0];
      } else {
        assert Join(rest) == rest[0] + "//" + Join(rest[1..]);
        assert Split(s)[1..] == rest[1..];
      }
      assert [s[0]] + s[1..] == s;
    }
  }

  /** A separator in front of a canonical decomposition adds an empty first segment. */
  lemma SepCanonical(rest: seq<string>)
    requires Canonical(rest)
    ensures Canonical([""] + rest)
  {

  }

  /** A character that does not start a separator with what follows it
      extends the first segment of a canonical decomposition. */
  lemma ConsCanonical(c: char, rest: seq<string>)
    requires Canonical(rest)
    requires !(c == '/' && Join(rest) != [] && Join(rest)[0] == '/')
    ensures Canonical([[c] + rest[0]] + rest[1..])
  {
    var head := [c] + rest[0];
    var parts := [head] + rest[1..];
    JoinStartsWithHead(rest);
    assert NoSep(head) by {
      forall i | 0 <= i < |head| - 1 ensures !SepAt(head, i) {
        if i == 0 {
          assert head[1] == rest[0][0] == Join(rest)[0];
        } else {
          assert head[i] == rest[0][i - 1] && head[i + 1] == rest[0][i];
          assert !SepAt(rest[0], i - 1);
        }
      }
    }
    if |rest| > 1 && rest[0] == [] {
      assert Join(rest) == "//" + Join(rest[1..]);
    }
    forall k | 0 < k < |parts| ensures parts[k] == rest[k] { }
  }

  /** The segments `Split` produces are the canonical decomposition. */
  lemma {:induction false} SplitCanonical(s: string)
    ensures Canonical(Split(s))
  {
    if |s| < 2 {
    } else if s[0] == '/' && s[1] == '/' {
      SplitCanonical(s[2..]);
      SepCanonical(Split(s[2..]));
    } else {
      SplitCanonical(s[1..]);
      JoinSplit(s[1..]);
      ConsCanonical(s[0], Split(s[1..]));
    }
  }

  /** The canonical decomposition is unique: any list of segments that is
      canonical and joins back to `s` is exactly what `Split` returns. */
  lemma {:induction false} SplitUnique(parts: seq<string>, s: string)
    requires Canonical(parts) && Join(parts) == s
    ensures Split(s) == parts
    decreases |s|
  {
    if |s| < 2 {
      assert |parts| == 1;
    } else if parts[0] == [] {
      assert |parts| > 1;
      assert s == "//" + Join(parts[1..]);
      assert s[2..] == Join(parts[1..]);
      assert Canonical(parts[1..]) by {
        forall k | 0 <= k < |parts| - 1 ensures parts[1..][k] == parts[k + 1] { }
      }
      SplitUnique(parts[1..], s[2..]);
      assert parts == [""] + parts[1..];
    } else {
      var c, r := parts[0][0], parts[0][1..];
      var tail := [r] + parts[1..];
      assert parts[0] == [c] + r;
      assert Join(tail) == s[1..] by {
        if |parts| > 1 {
          assert Join(tail) == r + "//" + Join(tail[1..]);
          assert tail[1..] == parts[1..];
        }
      }
      assert !(s[0] == '/' && s[1] == '/') by {
        assert s[0] == c;
        if r != [] {
          assert s[1] == r[0];
          assert !SepAt(parts[0], 0);
        } else if |parts| > 1 {
          assert parts[0] == [c];
        }
      }
      assert Canonical(tail) by {
        assert NoSep(r) by {
          forall i | 0 <= i < |r| - 1 ensures !SepAt(r, i) {
            assert !SepAt(parts[0], i + 1);
          }
        }
        forall k | 0 < k < |tail| ensures tail[k] == parts[k] { }
      }
      SplitUnique(tail, s[1..]);
      assert parts == [[c] + tail[0]] + tail[1..];
    }
  }

  /** A string without the separator splits into itself alone. */
  lemma NoSepSplit(s: string)
    requires NoSep(s)
    ensures Split(s) == [s]
  {
    SplitUnique([s], s);
  }

  /** The last joined segment is a suffix, preceded by a separator when
      there is more than one segment. */
  lemma {:induction false} JoinEndsWithLast(parts: seq<string>)
    requires |parts| > 1
    ensures exists p :: Join(parts) == p + "//" + parts[|parts| - 1]
  {
    if |parts| == 2 {
      assert Join(parts) == parts[0] + "//" + parts[1];
    } else {
      JoinEndsWithLast(parts[1..]);
      var p :| Join(parts[1..]) == p + "//" + parts[|parts| - 1];
      assert Join(parts) == (parts[0] + "//" + p) + "//" + parts[|parts| - 1];
    }
  }

  /** The last segment is the one after the last separator the
      left-to-right scan finds: it never holds a separator, it ends the URL,
      it is the whole URL when there is no separator, and otherwise a
      separator stands right before it. */
  lemma LastSegmentSpec(url: string)
    ensures NoSep(LastSegment(url))
    ensures NoSep(url) ==> LastSegment(url) == url
    ensures !NoSep(url) ==> exists p :: url == p + "//" + LastSegment(url)
    ensures LastSegment(url) == url[|url| - |LastSegment(url)|..]
  {
    var parts := Split(url);
    SplitCanonical(url);
    JoinSplit(url);
    if NoSep(url) {
      NoSepSplit(url);
    } else {
      assert |parts| > 1;
      JoinEndsWithLast(parts);
    }
  }

  /** An address keeps what follows its scheme. */
  lemma ExampleSegment()
    ensures LastSegment("https://example.com/") == "example.com/"
  {
    var parts := ["https:", "example.com/"];
    assert Canonical(parts) by {
      assert NoSep(parts[0]) by {
        forall i | 0 <= i < |parts[0]| - 1 ensures !SepAt(parts[0], i) { }
      }
      assert NoSep(parts[1]) by {
        forall i | 0 <= i < |parts[1]| - 1 ensures !SepAt(parts[1], i) { }
      }
    }
    assert Join(parts) == "https://example.com/";
    SplitUnique(parts, "https://example.com/");
  }

  /** The segment kept is the last one, not the one after the scheme: a URL
      that carries another URL keeps only the inner URL's host. */
  lemma ExampleNestedUrl()
    ensures LastSegment("http://a/?u=http://b") == "b"
  {
    var parts := ["http:", "a/?u=http:", "b"];
    assert Canonical(parts) by {
      assert NoSep(parts[0]) by {
        forall i | 0 <= i < |parts[0]| - 1 ensures !SepAt(parts[0], i) { }
      }
      assert NoSep(parts[1]) by {
        forall i | 0 <= i < |parts[1]| - 1 ensures !SepAt(parts[1], i) { }
      }
    }
    assert Join(parts) == "http://a/?u=http://b";
    SplitUnique(parts, "http://a/?u=http://b");
  }
}

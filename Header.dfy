/**
 * The menu header's image source: when a menu image is set, every
 * backtick is removed from it (`menuImage.replace(/`/g, '')`); otherwise
 * a placeholder is shown.
 */
module Header {
  import opened JsValues

  const BACKTICK: char := '`'

  /** The string with every backtick deleted and everything else kept in order. */
  function StripBackticks(s: string): (r: string)
    ensures BACKTICK !in r
    ensures |r| <= |s|
  {
    if s == [] then []
    else (if s[0] == BACKTICK then [] else [s[0]]) + StripBackticks(s[1..])
  }

  /** Stripping distributes over concatenation, so the relative order of characters is kept. */
  lemma {:induction false} StripConcat(a: string, b: string)
    ensures StripBackticks(a + b) == StripBackticks(a) + StripBackticks(b)
  {
    if a == [] {
      assert a + b == b;
    } else {
      assert (a + b)[0] == a[0] && (a + b)[1..] == a[1..] + b;
      StripConcat(a[1..], b);
    }
  }

  /** A string with no backtick is returned unchanged. */
  lemma {:induction false} StripWithoutBackticks(s: string)
    requires BACKTICK !in s
    ensures StripBackticks(s) == s
  {
    if s != [] {
      assert s == [s[0]] + s[1..];
      StripWithoutBackticks(s[1..]);
    }
  }

  /** Stripping is idempotent. */
  lemma StripIdempotent(s: string)
    ensures StripBackticks(StripBackticks(s)) == StripBackticks(s)
  {
    StripWithoutBackticks(StripBackticks(s));
  }

  /** Exactly the backticks are removed: every other character keeps its number of occurrences. */
  lemma {:induction false} StripCounts(s: string, c: char)
    ensures multiset(StripBackticks(s))[c] == if c == BACKTICK then 0 else multiset(s)[c]
  {
    if s != [] {
      StripCounts(s[1..], c);
      assert s == [s[0]] + s[1..];
      assert multiset(s) == multiset([s[0]]) + multiset(s[1..]);
    }
  }

  /** The output is shorter than the input by exactly the number of backticks. */
  lemma {:induction false} StripLength(s: string)
    ensures |StripBackticks(s)| == |s| - multiset(s)[BACKTICK]
  {
    if s != [] {
      StripLength(s[1..]);
      assert s == [s[0]] + s[1..];
      assert multiset(s) == multiset([s[0]]) + multiset(s[1..]);
    }
  }

  /**
   * The `src` of the header image: None (the placeholder) when the menu
   * image is absent or empty, otherwise the image with backticks stripped.
   */
  function ImageSource(menuImage: Option<string>): (src: Option<string>)
    ensures src.None? <==> menuImage.None? || menuImage.value == []
    ensures src.Some? ==> src.value == StripBackticks(menuImage.value) && BACKTICK !in src.value
  {
    if menuImage.Some? && menuImage.value != [] then Some(StripBackticks(menuImage.value)) else None
  }
}

/** Reading one cookie out of a `Cookie` request header
    (`src/utils/cookieUtils.ts`). */
module Cookie {
  import opened Common
  import opened Text

  /** The name of a `;`-separated segment: after trimming, the text before
      the first '='. */
  function CookieName(segment: string): string {
    Split(Trim(segment), '=')[0]
  }

  /** The value of a segment: the remaining `=`-pieces joined back with '=',
      so later '=' characters are kept. */
  function CookieValue(segment: string): string {
    Join(Split(Trim(segment), '=')[1..], '=')
  }

  /** Name and value are the two sides of the first '=' of the trimmed
      segment; a segment without '=' is all name and has the empty value. */
  lemma {:induction false} SegmentParts(segment: string)
    ensures match IndexOf(Trim(segment), '=')
      case None => CookieName(segment) == Trim(segment) && CookieValue(segment) == ""
      case Some(i) => CookieName(segment) == Trim(segment)[..i] && CookieValue(segment) == Trim(segment)[i + 1..]
  {
    SplitAtFirst(Trim(segment), '=');
  }

  /** The value of the first segment named `name`. */
  function FirstMatch(segments: seq<string>, name: string): Option<string> {
    if segments == [] then None
    else if CookieName(segments[0]) == name then Some(CookieValue(segments[0]))
    else FirstMatch(segments[1..], name)
  }

  /** `getCookie(header, name)`: `null` for a missing or empty header, else
      the first match among the `;`-separated segments. */
  function Lookup(header: Option<string>, name: string): Option<string> {
    if header.None? || header.value == [] then None
    else FirstMatch(Split(header.value, ';'), name)
  }

  /** The loop of `getCookie`, returning at the first segment whose name
      matches. */
  method GetCookie(header: Option<string>, name: string) returns (r: Option<string>)
    ensures r == Lookup(header, name)
  {
    if header.None? || header.value == [] {
      return None;
    }
    var cookies := Split(header.value, ';');
    for i := 0 to |cookies|
      invariant FirstMatch(cookies[i..], name) == FirstMatch(cookies, name)
    {
      assert cookies[i..][1..] == cookies[i + 1..];
      var parts := Split(Trim(cookies[i]), '=');
      if parts[0] == name {
        return Some(Join(parts[1..], '='));
      }
    }
    assert cookies[|cookies|..] == [];
    return None;
  }

  /** The first segment named `name` decides the result, whatever follows. */
  lemma {:induction false} FirstMatchWins(segments: seq<string>, name: string, i: nat)
    requires i < |segments| && CookieName(segments[i]) == name
    requires forall k :: 0 <= k < i ==> CookieName(segments[k]) != name
    ensures FirstMatch(segments, name) == Some(CookieValue(segments[i]))
  {
    if i > 0 {
      FirstMatchWins(segments[1..], name, i - 1);
    }
  }

  /** No segment named `name`: no value. */
  lemma {:induction false} NoMatch(segments: seq<string>, name: string)
    requires forall k :: 0 <= k < |segments| ==> CookieName(segments[k]) != name
    ensures FirstMatch(segments, name).None?
  {
    if segments != [] {
      NoMatch(segments[1..], name);
    }
  }

  /** And conversely: a value comes from some segment named `name`. */
  lemma {:induction false} MatchHasSource(segments: seq<string>, name: string)
    requires FirstMatch(segments, name).Some?
    ensures exists k :: 0 <= k < |segments| && CookieName(segments[k]) == name
                        && FirstMatch(segments, name) == Some(CookieValue(segments[k]))
  {
    if CookieName(segments[0]) != name {
      MatchHasSource(segments[1..], name);
      var k :| 0 <= k < |segments[1..]| && CookieName(segments[1..][k]) == name
               && FirstMatch(segments[1..], name) == Some(CookieValue(segments[1..][k]));
      assert segments[k + 1] == segments[1..][k];
    }
  }

  /** `name=value` as the first segment of a header is read back, with any
      later segments ignored: the name holds no '=' or ';', the value no
      ';', and the pair has no surrounding whitespace. */
  lemma CookieRoundTrip(name: string, value: string, rest: string)
    requires '=' !in name && ';' !in name && ';' !in value
    requires Trimmed(name + "=" + value)
    ensures Lookup(Some(name + "=" + value + ";" + rest), name) == Some(value)
  {
    var pair := name + "=" + value;
    assert ';' !in pair;
    SplitAfter(pair, ';', rest);
    assert name + "=" + value + ";" + rest == pair + [';'] + rest;
    var segments := Split(pair + [';'] + rest, ';');
    assert segments[0] == pair;
    TrimOfTrimmed(pair);
    IndexOfAfter(name, '=', value);
    SegmentParts(pair);
    assert pair[..|name|] == name && pair[|name| + 1..] == value;
    FirstMatchWins(segments, name, 0);
  }

  /** `getCookie("a=b=c", "a")` is `"b=c"`. */
  lemma LaterEqualsKept()
    ensures Lookup(Some("a=b=c"), "a") == Some("b=c")
  {
    var h := "a=b=c";
    SplitNoSep(h, ';');
    TrimOfTrimmed(h);
    SegmentParts(h);
    assert IndexOf(h, '=') == Some(1);
    FirstMatchWins([h], "a", 0);
  }

  /** A bare segment equal to the name reads as the empty value, after the
      blank before it is trimmed and the segment before it is passed over. */
  lemma BareNameIsEmpty(first: string, name: string)
    requires ';' !in first && ';' !in name && '=' !in name
    requires name != [] && Trimmed(name) && CookieName(first) != name
    ensures Lookup(Some(first + "; " + name), name) == Some("")
  {
    var bare := [' '] + name;
    TwoSegments(first, name);
    BareParts(name);
    var segments := [first, bare];
    assert FirstMatch(segments[1..], name) == Some("");
  }

  lemma TwoSegments(first: string, name: string)
    requires ';' !in first && ';' !in name
    ensures Split(first + "; " + name, ';') == [first, [' '] + name]
  {
    var bare := [' '] + name;
    assert first + "; " + name == first + [';'] + bare;
    SplitAfter(first, ';', bare);
    SplitNoSep(bare, ';');
  }

  lemma BareParts(name: string)
    requires '=' !in name && name != [] && Trimmed(name)
    ensures CookieName([' '] + name) == name && CookieValue([' '] + name) == ""
  {
    TrimSpaced(name);
    SplitNoSep(name, '=');
  }

  /** Trimming a blank and a trimmed word gives the word. */
  lemma TrimSpaced(name: string)
    requires name != [] && Trimmed(name)
    ensures Trim([' '] + name) == name
  {
    var s := [' '] + name;
    var (lo, hi) := TrimBounds(s);
    assert !IsWhitespace(s[1]) && !IsWhitespace(s[|s| - 1]);
    assert lo == 1;
    assert hi == |s|;
    assert s[1..] == name;
  }
}

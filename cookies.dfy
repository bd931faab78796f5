/**
 * `parseCookies` of server.js: split the Cookie header on ';', trim each
 * part, drop the empty ones, split each pair at its first '=', and collect
 * the pairs into an object in which a later name overwrites an earlier one.
 * `decodeURIComponent` on the value is taken as the identity.
 */
module Cookies {

  /** The characters `String.prototype.trim` removes: JavaScript WhiteSpace and LineTerminator. */
  predicate IsSpace(c: char) {
    || c == ' ' || c == '\t' || c == '\n' || c == '\r'
    || c == '\U{000B}' || c == '\U{000C}' || c == '\U{00A0}' || c == '\U{FEFF}'
    || c == '\U{1680}' || ('\U{2000}' <= c <= '\U{200A}') || c == '\U{2028}' || c == '\U{2029}'
    || c == '\U{202F}' || c == '\U{205F}' || c == '\U{3000}'
  }

  function TrimStart(s: string): (r: string)
    ensures |r| <= |s| && r == s[|s| - |r|..]
    ensures forall i :: 0 <= i < |s| - |r| ==> IsSpace(s[i])
    ensures r == [] || !IsSpace(r[0])
    decreases |s|
  {
    if s != [] && IsSpace(s[0]) then TrimStart(s[1..]) else s
  }

  function TrimEnd(s: string): (r: string)
    ensures |r| <= |s| && r == s[..|r|]
    ensures forall i :: |r| <= i < |s| ==> IsSpace(s[i])
    ensures r == [] || !IsSpace(r[|r| - 1])
    decreases |s|
  {
    if s != [] && IsSpace(s[|s| - 1]) then TrimEnd(s[..|s| - 1]) else s
  }

  /** `s.trim()` */
  function Trim(s: string): string {
    TrimEnd(TrimStart(s))
  }

  /** `trim()` keeps a middle slice of the string. */
  lemma TrimSlice(s: string)
    ensures |s| - |TrimStart(s)| + |Trim(s)| <= |s|
    ensures Trim(s) == s[|s| - |TrimStart(s)|..|s| - |TrimStart(s)| + |Trim(s)|]
  {
    SliceOfSuffix(s, TrimStart(s), Trim(s));
  }

  /** The slice `trim()` keeps neither starts nor ends with white space. */
  lemma TrimEnds(s: string)
    ensures Trim(s) == [] || (!IsSpace(Trim(s)[0]) && !IsSpace(Trim(s)[|Trim(s)| - 1]))
  {
    var t := TrimStart(s);
    if Trim(s) != [] {
      assert Trim(s)[0] == t[0];
    }
  }

  /** A prefix of a suffix is a middle slice. */
  lemma SliceOfSuffix(s: string, t: string, r: string)
    requires |t| <= |s| && t == s[|s| - |t|..] && |r| <= |t| && r == t[..|r|]
    ensures r == s[|s| - |t|..|s| - |t| + |r|]
  {
  }

  /**
   * What `trim()` removes after the slice it keeps is all white space (what
   * it removes before the slice is, by the contract of `TrimStart`).
   */
  lemma TrimRemovesSpace(s: string)
    ensures forall k :: |s| - |TrimStart(s)| + |Trim(s)| <= k < |s| ==> IsSpace(s[k])
  {
    var t := TrimStart(s);
    var r := TrimEnd(t);
    forall k | |s| - |t| + |r| <= k < |s| ensures IsSpace(s[k]) {
      SuffixIndex(s, t, k);
    }
  }

  lemma SuffixIndex(s: string, t: string, k: int)
    requires |t| <= |s| && t == s[|s| - |t|..] && |s| - |t| <= k < |s|
    ensures s[k] == t[k - (|s| - |t|)]
  {
  }

  /** White space in front of a string with nothing to trim is removed by `trim()`. */
  lemma TrimLeadingSpace(c: char, s: string)
    requires IsSpace(c) && s != [] && !IsSpace(s[0]) && !IsSpace(s[|s| - 1])
    ensures Trim([c] + s) == s
  {
    assert ([c] + s)[1..] == s;
    TrimKeeps(s);
  }

  /** `s.indexOf(c)`: the first position of `c`, or -1. */
  function IndexOf(s: string, c: char): (i: int)
    ensures -1 <= i < |s|
    ensures i == -1 ==> forall k :: 0 <= k < |s| ==> s[k] != c
    ensures 0 <= i ==> s[i] == c && forall k :: 0 <= k < i ==> s[k] != c
    decreases |s|
  {
    if s == [] then -1
    else if s[0] == c then 0
    else
      var j := IndexOf(s[1..], c);
      if j < 0 then -1 else j + 1
  }

  /** The parts between separators, the inverse of `Split`. */
  function Join(parts: seq<string>, sep: char): string
    decreases |parts|
  {
    if parts == [] then "" else if |parts| == 1 then parts[0] else parts[0] + [sep] + Join(parts[1..], sep)
  }

  /** `s.split(sep)` for a one-character separator. */
  function Split(s: string, sep: char): (parts: seq<string>)
    ensures |parts| >= 1
    ensures forall i :: 0 <= i < |parts| ==> sep !in parts[i]
    decreases |s|
  {
    if s == [] then [""]
    else
      var rest := Split(s[1..], sep);
      if s[0] == sep then [""] + rest else [[s[0]] + rest[0]] + rest[1..]
  }

  /** Joining the parts with the separator gives back the string. */
  lemma {:induction false} JoinSplit(s: string, sep: char)
    ensures Join(Split(s, sep), sep) == s
    decreases |s|
  {
    if s != [] {
      var rest := Split(s[1..], sep);
      JoinSplit(s[1..], sep);
      if s[0] != sep {
        JoinCons(s[0], rest, sep);
        assert s == [s[0]] + s[1..];
      }
    }
  }

  lemma JoinCons(c: char, parts: seq<string>, sep: char)
    requires |parts| >= 1
    ensures Join([[c] + parts[0]] + parts[1..], sep) == [c] + Join(parts, sep)
  {
    var ps := [[c] + parts[0]] + parts[1..];
    assert ps[0] == [c] + parts[0] && ps[1..] == parts[1..];
    if |parts| > 1 {
      assert Join(ps, sep) == ([c] + parts[0]) + [sep] + Join(parts[1..], sep);
    }
  }

  /** A string without the separator is one part. */
  lemma {:induction false} SplitNoSeparator(s: string, sep: char)
    requires forall k :: 0 <= k < |s| ==> s[k] != sep
    ensures Split(s, sep) == [s]
    decreases |s|
  {
    if s != [] {
      SplitNoSeparator(s[1..], sep);
      assert s == [s[0]] + s[1..];
    }
  }

  /** Splitting `a + sep + b` splits `a` and `b` separately. */
  lemma {:induction false} SplitConcat(a: string, sep: char, b: string)
    ensures Split(a + [sep] + b, sep) == Split(a, sep) + Split(b, sep)
    decreases |a|
  {
    var s := a + [sep] + b;
    if a == [] {
      assert s[1..] == b;
    } else {
      assert s[0] == a[0] && s[1..] == a[1..] + [sep] + b;
      SplitConcat(a[1..], sep, b);
    }
  }

  /** `.map((part) => part.trim()).filter(Boolean)` */
  function TrimmedParts(parts: seq<string>): (r: seq<string>)
    ensures forall i :: 0 <= i < |r| ==> r[i] != ""
    decreases |parts|
  {
    if parts == [] then []
    else (var t := Trim(parts[0]); if t == "" then [] else [t]) + TrimmedParts(parts[1..])
  }

  /** One part gives its trimmed text, or nothing when that is empty. */
  lemma TrimmedPartsSingle(part: string)
    ensures TrimmedParts([part]) == if Trim(part) == "" then [] else [Trim(part)]
  {
    assert [part][1..] == [];
  }

  lemma {:induction false} TrimmedPartsConcat(a: seq<string>, b: seq<string>)
    ensures TrimmedParts(a + b) == TrimmedParts(a) + TrimmedParts(b)
    decreases |a|
  {
    if a == [] {
      assert a + b == b;
    } else {
      assert (a + b)[0] == a[0] && (a + b)[1..] == a[1..] + b;
      TrimmedPartsConcat(a[1..], b);
    }
  }

  /**
   * One cookie pair: name before the first '=', value after it. Without an
   * '=', `indexOf` gives -1, so `slice(0, -1)` drops the last character for
   * the name and `slice(0)` keeps the whole pair as the value.
   */
  function ParsePair(pair: string): (kv: (string, string))
    ensures '=' in pair ==> '=' !in kv.0 && kv.0 + "=" + kv.1 == pair
    ensures '=' !in pair && pair != [] ==> kv.1 == pair && kv.0 == pair[..|pair| - 1]
  {
    var idx := IndexOf(pair, '=');
    if idx < 0 then (if pair == [] then "" else pair[..|pair| - 1], pair)
    else
      SplitAtFirst(pair, idx);
      (pair[..idx], pair[idx + 1..])
  }

  /** Cutting at the first '=' leaves a name without '=' and loses nothing. */
  lemma SplitAtFirst(pair: string, idx: int)
    requires 0 <= idx < |pair| && pair[idx] == '='
    requires forall k :: 0 <= k < idx ==> pair[k] != '='
    ensures '=' !in pair[..idx] && pair[..idx] + "=" + pair[idx + 1..] == pair
  {
    assert pair == pair[..idx] + [pair[idx]] + pair[idx + 1..];
  }

  function ParsePairs(parts: seq<string>): (r: seq<(string, string)>)
    ensures |r| == |parts|
    ensures forall i :: 0 <= i < |parts| ==> r[i] == ParsePair(parts[i])
    decreases |parts|
  {
    if parts == [] then [] else [ParsePair(parts[0])] + ParsePairs(parts[1..])
  }

  /** Pair `i` carries the last occurrence of its name. */
  predicate LastWithName(pairs: seq<(string, string)>, i: int)
    requires 0 <= i < |pairs|
  {
    forall j :: i < j < |pairs| ==> pairs[j].0 != pairs[i].0
  }

  /** The names of the pairs. */
  function Names(pairs: seq<(string, string)>): set<string> {
    set i | 0 <= i < |pairs| :: pairs[i].0
  }

  /**
   * `Object.fromEntries(pairs)`. Entries are stored in order, so a later
   * pair overwrites an earlier one with the same name: the first pair under
   * everything that follows it.
   */
  function FromEntries(pairs: seq<(string, string)>): (m: map<string, string>)
    ensures m.Keys == Names(pairs)
    decreases |pairs|
  {
    if pairs == [] then map[]
    else
      assert Names(pairs) == {pairs[0].0} + Names(pairs[1..]) by {
        assert forall i :: 0 < i < |pairs| ==> pairs[i] == pairs[1..][i - 1];
        assert forall i :: 0 <= i < |pairs| - 1 ==> pairs[1..][i] == pairs[i + 1];
      }
      map[pairs[0].0 := pairs[0].1] + FromEntries(pairs[1..])
  }

  /** The value of a name is the one of its last pair. */
  lemma {:induction false} FromEntriesLastWins(pairs: seq<(string, string)>, i: int)
    requires 0 <= i < |pairs| && LastWithName(pairs, i)
    ensures pairs[i].0 in FromEntries(pairs) && FromEntries(pairs)[pairs[i].0] == pairs[i].1
    decreases |pairs|
  {
    var rest := pairs[1..];
    if i == 0 {
      assert pairs[0].0 !in Names(rest) by {
        forall k | 0 <= k < |rest| ensures rest[k].0 != pairs[0].0 {
          assert rest[k] == pairs[k + 1];
        }
      }
    } else {
      assert rest[i - 1] == pairs[i];
      assert LastWithName(rest, i - 1) by {
        forall j | i - 1 < j < |rest| ensures rest[j].0 != rest[i - 1].0 {
          assert rest[j] == pairs[j + 1];
        }
      }
      FromEntriesLastWins(rest, i - 1);
    }
  }

  lemma {:induction false} FromEntriesConcat(a: seq<(string, string)>, b: seq<(string, string)>)
    ensures FromEntries(a + b) == FromEntries(a) + FromEntries(b)
    decreases |a|
  {
    if a == [] {
      assert a + b == b;
    } else {
      var h := map[a[0].0 := a[0].1];
      assert FromEntries(a + b) == h + FromEntries(a[1..] + b) by {
        assert (a + b)[0] == a[0] && (a + b)[1..] == a[1..] + b;
      }
      FromEntriesConcat(a[1..], b);
      UnionAssociative(h, FromEntries(a[1..]), FromEntries(b));
    }
  }

  lemma UnionAssociative(x: map<string, string>, y: map<string, string>, z: map<string, string>)
    ensures x + (y + z) == (x + y) + z
  {
  }

  lemma ParsePairsConcat(a: seq<string>, b: seq<string>)
    ensures ParsePairs(a + b) == ParsePairs(a) + ParsePairs(b)
  {
  }

  /** `parseCookies(cookieHeader)` */
  function ParseCookies(header: string): map<string, string> {
    FromEntries(ParsePairs(TrimmedParts(Split(header, ';'))))
  }

  /** Cookies are the pairs of the non-empty trimmed parts; the last pair with a name gives its value. */
  lemma ParseCookiesLastWins(header: string, i: int)
    requires var pairs := ParsePairs(TrimmedParts(Split(header, ';')));
      0 <= i < |pairs| && LastWithName(pairs, i)
    ensures var pairs := ParsePairs(TrimmedParts(Split(header, ';')));
      pairs[i].0 in ParseCookies(header) && ParseCookies(header)[pairs[i].0] == pairs[i].1
  {
    FromEntriesLastWins(ParsePairs(TrimmedParts(Split(header, ';'))), i);
  }

  /** Two headers joined by ';' parse to the union of their cookies, the right-hand one winning. */
  lemma ParseCookiesConcat(h1: string, h2: string)
    ensures ParseCookies(h1 + ";" + h2) == ParseCookies(h1) + ParseCookies(h2)
  {
    var p1, p2 := Split(h1, ';'), Split(h2, ';');
    assert Split(h1 + ";" + h2, ';') == p1 + p2 by {
      SplitConcat(h1, ';', h2);
    }
    var t1, t2 := TrimmedParts(p1), TrimmedParts(p2);
    assert TrimmedParts(p1 + p2) == t1 + t2 by {
      TrimmedPartsConcat(p1, p2);
    }
    assert ParsePairs(t1 + t2) == ParsePairs(t1) + ParsePairs(t2) by {
      ParsePairsConcat(t1, t2);
    }
    FromEntriesConcat(ParsePairs(t1), ParsePairs(t2));
  }

  /** Nothing to trim at either end: `trim()` keeps the string. */
  lemma TrimKeeps(s: string)
    requires s != [] && !IsSpace(s[0]) && !IsSpace(s[|s| - 1])
    ensures Trim(s) == s
  {
    assert TrimStart(s) == s;
  }

  /** A header that is one part with nothing to trim is the one cookie of that part. */
  lemma ParseCookiesOnePart(part: string)
    requires part != [] && ';' !in part
    requires !IsSpace(part[0]) && !IsSpace(part[|part| - 1])
    ensures ParseCookies(part) == map[ParsePair(part).0 := ParsePair(part).1]
  {
    SplitNoSeparator(part, ';');
    TrimKeeps(part);
    assert TrimmedParts([part]) == [part];
    assert ParsePairs([part]) == [ParsePair(part)];
  }

  /** A pair whose name has no '=' splits back into that name and value. */
  lemma ParsePairAt(name: string, value: string)
    requires '=' !in name
    ensures ParsePair(name + "=" + value) == (name, value)
  {
    var pair := name + "=" + value;
    assert pair[|name|] == '=';
    assert pair[..|name|] == name && pair[|name| + 1..] == value;
    assert IndexOf(pair, '=') == |name|;
  }

  /**
   * A single `name=value` cookie, the name free of '=' and ';', the value
   * free of ';' (it may contain '='), nothing to trim at either end.
   */
  lemma ParseCookiesSingle(name: string, value: string)
    requires name != [] && value != []
    requires '=' !in name && ';' !in name && ';' !in value
    requires !IsSpace(name[0]) && !IsSpace(value[|value| - 1])
    ensures ParseCookies(name + "=" + value) == map[name := value]
  {
    var pair := name + "=" + value;
    assert pair[0] == name[0] && pair[|pair| - 1] == value[|value| - 1];
    assert ';' !in pair by {
      forall k | 0 <= k < |pair| ensures pair[k] != ';' {
        if k < |name| { assert pair[k] == name[k]; }
        else if k > |name| { assert pair[k] == value[k - |name| - 1]; }
      }
    }
    ParseCookiesOnePart(pair);
    ParsePairAt(name, value);
  }

  /** A part with a space in front parses as the part alone. */
  lemma ParseCookiesLeadingSpace(part: string)
    requires part != [] && ';' !in part
    requires !IsSpace(part[0]) && !IsSpace(part[|part| - 1])
    ensures ParseCookies(" " + part) == ParseCookies(part)
  {
    var spaced := " " + part;
    assert ';' !in spaced by {
      forall k | 1 <= k < |spaced| ensures spaced[k] != ';' {
        assert spaced[k] == part[k - 1];
      }
    }
    SplitNoSeparator(spaced, ';');
    TrimLeadingSpace(' ', part);
    TrimmedPartsSingle(spaced);
    ParseCookiesOnePart(part);
    assert ParsePairs([part]) == [ParsePair(part)];
  }

  /**
   * A browser sends further cookies as `; name=value` after the first: the
   * new pair adds its name or overwrites it, whatever came before.
   */
  lemma ParseCookiesAppend(header: string, name: string, value: string)
    requires name != [] && value != []
    requires '=' !in name && ';' !in name && ';' !in value
    requires !IsSpace(name[0]) && !IsSpace(value[|value| - 1])
    ensures ParseCookies(header + "; " + (name + "=" + value)) == ParseCookies(header)[name := value]
  {
    var pair := name + "=" + value;
    PairParts(name, value);
    ParseCookiesLeadingSpace(pair);
    ParseCookiesSingle(name, value);
    ParseCookiesAfter(header, pair);
    UnionSingleton(ParseCookies(header), name, value);
  }

  /** A part after `; ` adds its cookies to those of the header before it. */
  lemma ParseCookiesAfter(header: string, part: string)
    ensures ParseCookies(header + "; " + part) == ParseCookies(header) + ParseCookies(" " + part)
  {
    SemicolonSpace(header, part);
    ParseCookiesConcat(header, " " + part);
  }

  lemma SemicolonSpace(header: string, part: string)
    ensures header + "; " + part == header + ";" + (" " + part)
  {
  }

  /** A `name=value` pair has no ';' and starts and ends where its name and value do. */
  lemma PairParts(name: string, value: string)
    requires name != [] && value != [] && ';' !in name && ';' !in value
    ensures var pair := name + "=" + value;
      && ';' !in pair && pair[0] == name[0] && pair[|pair| - 1] == value[|value| - 1]
  {
    var pair := name + "=" + value;
    forall k | 0 <= k < |pair| ensures pair[k] != ';' {
      if k < |name| { assert pair[k] == name[k]; }
      else if k > |name| { assert pair[k] == value[k - |name| - 1]; }
    }
  }

  lemma UnionSingleton(m: map<string, string>, name: string, value: string)
    ensures m + map[name := value] == m[name := value]
  {
  }

  /** A missing Cookie header (`''`) has no cookies. */
  lemma ParseCookiesEmpty()
    ensures ParseCookies("") == map[]
  {
    assert Split("", ';') == [""];
    assert TrimEnd(TrimStart("")) == "";
    TrimmedPartsSingle("");
  }

  /** A part without '=' yields a name one character short, whose value is the whole part. */
  lemma ParseCookiesBare(part: string)
    requires part != [] && '=' !in part && ';' !in part
    requires !IsSpace(part[0]) && !IsSpace(part[|part| - 1])
    ensures ParseCookies(part) == map[part[..|part| - 1] := part]
  {
    ParseCookiesOnePart(part);
  }
}

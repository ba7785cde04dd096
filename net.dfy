/**
 * The parts of net/http that the outbound client relies on: an http.Header,
 * the canonical form of its keys, Header.Set and Header.Get, and the
 * Cookie header that Request.AddCookie builds.
 */
module Net {

  /** An http.Header: each (canonical) field name holds its list of values. */
  type Header = map<string, seq<string>>

  /** A character allowed in a header field name (the token characters of RFC 7230). */
  predicate IsTokenChar(c: char) {
    || ('a' <= c <= 'z') || ('A' <= c <= 'Z') || ('0' <= c <= '9')
    || c == '!' || c == '#' || c == '$' || c == '%' || c == '&' || c == '\'' || c == '*'
    || c == '+' || c == '-' || c == '.' || c == '^' || c == '_' || c == '`' || c == '|' || c == '~'
  }

  function UpperAscii(c: char): char {
    if 'a' <= c <= 'z' then (c as int - 32) as char else c
  }

  function LowerAscii(c: char): char {
    if 'A' <= c <= 'Z' then (c as int + 32) as char else c
  }

  /**
   * Upper-cases a letter at the start (when `upper`) or right after a hyphen and
   * lower-cases every other letter. The result differs from `s` only in letter case.
   */
  function Canonicalize(s: string, upper: bool): (r: string)
    ensures |r| == |s|
  {
    if s == [] then []
    else
      var c := if upper then UpperAscii(s[0]) else LowerAscii(s[0]);
      [c] + Canonicalize(s[1..], c == '-')
  }

  /** Canonicalising changes letter case only, so it keeps every character a token character. */
  lemma {:induction false} CanonicalizeKeepsTokens(s: string, upper: bool)
    requires AllTokenChars(s)
    ensures AllTokenChars(Canonicalize(s, upper))
  {
    if s != [] {
      var c := if upper then UpperAscii(s[0]) else LowerAscii(s[0]);
      assert AllTokenChars(s[1..]) by {
        forall i | 0 <= i < |s[1..]| ensures IsTokenChar(s[1..][i]) {
          assert s[1..][i] == s[i + 1];
        }
      }
      CanonicalizeKeepsTokens(s[1..], c == '-');
      var r := Canonicalize(s, upper);
      forall i | 0 <= i < |r| ensures IsTokenChar(r[i]) {
        if i > 0 {
          assert r[i] == Canonicalize(s[1..], c == '-')[i - 1];
        }
      }
    }
  }

  /** Character i is as canonicalisation leaves it: not lower-case where it would be upper-cased, and vice versa. */
  predicate CanonicalAt(s: string, i: nat, upper: bool)
    requires i < |s|
  {
    if (if i == 0 then upper else s[i - 1] == '-') then !('a' <= s[i] <= 'z') else !('A' <= s[i] <= 'Z')
  }

  predicate IsCanonical(s: string, upper: bool) {
    forall i :: 0 <= i < |s| ==> CanonicalAt(s, i, upper)
  }

  /** A string already in canonical form is left unchanged. */
  lemma {:induction false} CanonicalizeFixes(s: string, upper: bool)
    requires IsCanonical(s, upper)
    ensures Canonicalize(s, upper) == s
  {
    if s != [] {
      assert CanonicalAt(s, 0, upper);
      var rest, next := s[1..], s[0] == '-';
      forall i | 0 <= i < |rest| ensures CanonicalAt(rest, i, next) {
        assert CanonicalAt(s, i + 1, upper);
        if i > 0 {
          assert rest[i - 1] == s[i];
        }
      }
      CanonicalizeFixes(rest, next);
      assert s == [s[0]] + rest;
    }
  }

  predicate AllTokenChars(s: string) {
    forall i :: 0 <= i < |s| ==> IsTokenChar(s[i])
  }

  /**
   * textproto.CanonicalMIMEHeaderKey: a name made only of token characters is
   * canonicalised ("x-b3-traceid" becomes "X-B3-Traceid"); any other name is
   * kept as it is.
   */
  function CanonicalKey(s: string): (r: string)
    ensures |r| == |s|
    ensures AllTokenChars(s) ==> AllTokenChars(r) && IsCanonical(r, true)
    ensures !AllTokenChars(s) ==> r == s
  {
    if AllTokenChars(s) then
      CanonicalizeKeepsTokens(s, true);
      CanonicalizeIsCanonical(s, true);
      Canonicalize(s, true)
    else s
  }

  /** What canonicalisation produces is in canonical form. */
  lemma {:induction false} CanonicalizeIsCanonical(s: string, upper: bool)
    ensures IsCanonical(Canonicalize(s, upper), upper)
  {
    if s != [] {
      var c := if upper then UpperAscii(s[0]) else LowerAscii(s[0]);
      var r, rest := Canonicalize(s, upper), Canonicalize(s[1..], c == '-');
      assert r == [c] + rest;
      CanonicalizeIsCanonical(s[1..], c == '-');
      forall i | 0 <= i < |r| ensures CanonicalAt(r, i, upper) {
        if i > 0 {
          assert CanonicalAt(rest, i - 1, c == '-');
          assert r[i] == rest[i - 1];
          if i > 1 {
            assert r[i - 1] == rest[i - 2];
          }
        }
      }
    }
  }

  lemma {:induction false} CanonicalizeIdempotent(s: string, upper: bool)
    ensures Canonicalize(Canonicalize(s, upper), upper) == Canonicalize(s, upper)
  {
    if s != [] {
      var c := if upper then UpperAscii(s[0]) else LowerAscii(s[0]);
      var r := Canonicalize(s, upper);
      assert r == [c] + Canonicalize(s[1..], c == '-');
      assert r[1..] == Canonicalize(s[1..], c == '-');
      CanonicalizeIdempotent(s[1..], c == '-');
    }
  }

  /** Canonicalising a key twice gives the same key as canonicalising it once. */
  lemma CanonicalKeyIdempotent(s: string)
    ensures CanonicalKey(CanonicalKey(s)) == CanonicalKey(s)
  {
    if AllTokenChars(s) {
      CanonicalizeKeepsTokens(s, true);
      CanonicalizeIdempotent(s, true);
    }
  }

  lemma {:induction false} CanonicalizeIgnoresCase(a: string, b: string, upper: bool)
    requires |a| == |b|
    requires forall i :: 0 <= i < |a| ==> LowerAscii(a[i]) == LowerAscii(b[i])
    ensures Canonicalize(a, upper) == Canonicalize(b, upper)
  {
    if a != [] {
      assert LowerAscii(a[0]) == LowerAscii(b[0]);
      var ca := if upper then UpperAscii(a[0]) else LowerAscii(a[0]);
      var cb := if upper then UpperAscii(b[0]) else LowerAscii(b[0]);
      assert ca == cb;
      CanonicalizeIgnoresCase(a[1..], b[1..], ca == '-');
    }
  }

  /** Two token names that differ only in ASCII letter case name the same header slot. */
  lemma CanonicalKeyIgnoresCase(a: string, b: string)
    requires AllTokenChars(a)
    requires |a| == |b|
    requires forall i :: 0 <= i < |a| ==> LowerAscii(a[i]) == LowerAscii(b[i])
    ensures CanonicalKey(a) == CanonicalKey(b)
  {
    assert AllTokenChars(b) by {
      forall i | 0 <= i < |b| ensures IsTokenChar(b[i]) {
        assert IsTokenChar(a[i]) && LowerAscii(a[i]) == LowerAscii(b[i]);
      }
    }
    CanonicalizeIgnoresCase(a, b, true);
  }

  /** Header.Get: the first value stored under the canonical key, or "" when there is none. */
  function Get(h: Header, key: string): (r: string)
    ensures r != "" ==> CanonicalKey(key) in h && |h[CanonicalKey(key)]| > 0 && r == h[CanonicalKey(key)][0]
    ensures CanonicalKey(key) !in h ==> r == ""
    ensures CanonicalKey(key) in h && |h[CanonicalKey(key)]| > 0 ==> r == h[CanonicalKey(key)][0]
    ensures CanonicalKey(key) in h && |h[CanonicalKey(key)]| == 0 ==> r == ""
  {
    var k := CanonicalKey(key);
    if k in h && |h[k]| > 0 then h[k][0] else ""
  }

  /** Reading a header by its canonical name reads the same slot as by the name itself. */
  lemma GetByCanonicalKey(h: Header, key: string)
    ensures Get(h, CanonicalKey(key)) == Get(h, key)
  {
    CanonicalKeyIdempotent(key);
  }

  /** Header.Set: the canonical key now holds exactly the one value; every other key is untouched. */
  function Set(h: Header, key: string, value: string): (r: Header)
    ensures r.Keys == h.Keys + {CanonicalKey(key)}
    ensures r[CanonicalKey(key)] == [value] && Get(r, key) == value
    ensures forall k :: k in h && k != CanonicalKey(key) ==> r[k] == h[k]
  {
    h[CanonicalKey(key) := [value]]
  }

  /** The pairs applied one after another with Header.Set. */
  function SetAll(h: Header, pairs: seq<(string, string)>): Header {
    if pairs == [] then h
    else
      var last := pairs[|pairs| - 1];
      Set(SetAll(h, pairs[..|pairs| - 1]), last.0, last.1)
  }

  /**
   * Of the pairs that share a canonical key, the one applied last decides the
   * value: pair i wins when no later pair has the same canonical key.
   */
  lemma {:induction false} SetAllLastWins(h: Header, pairs: seq<(string, string)>, i: nat)
    requires i < |pairs|
    requires forall j :: i < j < |pairs| ==> CanonicalKey(pairs[j].0) != CanonicalKey(pairs[i].0)
    ensures CanonicalKey(pairs[i].0) in SetAll(h, pairs)
    ensures SetAll(h, pairs)[CanonicalKey(pairs[i].0)] == [pairs[i].1]
  {
    if i < |pairs| - 1 {
      var init := pairs[..|pairs| - 1];
      assert init[i] == pairs[i];
      forall j | i < j < |init| ensures CanonicalKey(init[j].0) != CanonicalKey(init[i].0) {
        assert init[j] == pairs[j];
      }
      SetAllLastWins(h, init, i);
    }
  }

  /** A canonical key that no pair maps to keeps its presence and its values. */
  lemma {:induction false} SetAllUntouched(h: Header, pairs: seq<(string, string)>, c: string)
    requires forall j :: 0 <= j < |pairs| ==> CanonicalKey(pairs[j].0) != c
    ensures c in SetAll(h, pairs) <==> c in h
    ensures c in h ==> SetAll(h, pairs)[c] == h[c]
  {
    if pairs != [] {
      var init := pairs[..|pairs| - 1];
      forall j | 0 <= j < |init| ensures CanonicalKey(init[j].0) != c {
        assert init[j] == pairs[j];
      }
      SetAllUntouched(h, init, c);
    }
  }

  /** An http.Cookie as AddCookie uses it: its name and value. */
  datatype Cookie = Cookie(name: string, value: string)

  function CookiePair(c: Cookie): string {
    c.name + "=" + c.value
  }

  /**
   * Request.AddCookie: "name=value" is appended to the Cookie header, after
   * "; " when the header already has a non-empty value.
   */
  function AddCookie(h: Header, c: Cookie): (r: Header)
    ensures Get(h, "Cookie") == "" ==> Get(r, "Cookie") == CookiePair(c)
    ensures Get(h, "Cookie") != "" ==> Get(r, "Cookie") == Get(h, "Cookie") + "; " + CookiePair(c)
    ensures CanonicalKey("Cookie") in r && r[CanonicalKey("Cookie")] == [Get(r, "Cookie")]
    ensures forall k :: k != CanonicalKey("Cookie") ==> (k in r <==> k in h) && (k in h ==> r[k] == h[k])
  {
    var s := CookiePair(c);
    var prior := Get(h, "Cookie");
    if prior != "" then Set(h, "Cookie", prior + "; " + s) else Set(h, "Cookie", s)
  }
}

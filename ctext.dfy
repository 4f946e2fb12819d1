/**
 * The three C library behaviours the remount service relies on, on text:
 * a bounded read into a NUL-terminated buffer, `strstr`, and the way
 * `strtok` (and the `%s` conversions of `sscanf`) cut text into tokens.
 */
module CText {

  /** The text a C routine sees after reading `raw` into a buffer that holds
      `cap` characters and a terminating NUL: at most `cap` characters, and
      nothing from the first NUL character on. */
  function CBuffer(raw: string, cap: nat): string
  {
    if raw == [] || cap == 0 || raw[0] == '\0' then []
    else [raw[0]] + CBuffer(raw[1..], cap - 1)
  }

  /** The buffer holds the longest NUL-free prefix of `raw` that fits. */
  lemma {:induction false} CBufferSpec(raw: string, cap: nat)
    ensures var s := CBuffer(raw, cap);
      |s| <= cap && |s| <= |raw| && s == raw[..|s|] &&
      (forall k :: 0 <= k < |s| ==> s[k] != '\0') &&
      (|s| == |raw| || |s| == cap || raw[|s|] == '\0')
  {
    if !(raw == [] || cap == 0 || raw[0] == '\0') {
      CBufferSpec(raw[1..], cap - 1);
    }
  }

  /** A prefix without NUL characters that fits in the buffer survives the read. */
  lemma CBufferKeepsPrefix(raw: string, p: string, cap: nat)
    requires |p| <= |raw| && raw[..|p|] == p && |p| <= cap
    requires forall k :: 0 <= k < |p| ==> p[k] != '\0'
    ensures |p| <= |CBuffer(raw, cap)| && CBuffer(raw, cap)[..|p|] == p
  {
    var s := CBuffer(raw, cap);
    CBufferSpec(raw, cap);
    assert forall k :: 0 <= k < |p| ==> raw[k] == p[k];
  }

  /** Text without NUL characters that fits in the buffer is read whole. */
  lemma CBufferWhole(raw: string, cap: nat)
    requires |raw| <= cap
    requires forall k :: 0 <= k < |raw| ==> raw[k] != '\0'
    ensures CBuffer(raw, cap) == raw
  {
    CBufferKeepsPrefix(raw, raw, cap);
  }

  /** `pat` occurs in `s` starting at index `i`. */
  predicate OccursAt(pat: string, s: string, i: int)
  {
    0 <= i && i + |pat| <= |s| && s[i..i + |pat|] == pat
  }

  /** `strstr(s, pat) != NULL`: a left-to-right search for `pat`. */
  function Contains(s: string, pat: string): bool
    decreases |s|
  {
    if |pat| > |s| then false
    else if s[..|pat|] == pat then true
    else Contains(s[1..], pat)
  }

  /** The search finds `pat` exactly when `pat` occurs somewhere in `s`. */
  lemma {:induction false} ContainsIff(s: string, pat: string)
    ensures Contains(s, pat) <==> exists i :: OccursAt(pat, s, i)
    decreases |s|
  {
    if |pat| > |s| {
    } else if s[..|pat|] == pat {
      assert OccursAt(pat, s, 0);
    } else {
      ContainsIff(s[1..], pat);
      if Contains(s[1..], pat) {
        var i :| OccursAt(pat, s[1..], i);
        assert s[1..][i..i + |pat|] == s[i + 1..i + 1 + |pat|];
        assert OccursAt(pat, s, i + 1);
      }
      if exists i :: OccursAt(pat, s, i) {
        var i :| OccursAt(pat, s, i);
        assert i != 0;
        assert s[1..][i - 1..i - 1 + |pat|] == s[i..i + |pat|];
        assert OccursAt(pat, s[1..], i - 1);
      }
    }
  }

  /** A search finds every occurrence that the text has. */
  lemma ContainsAt(s: string, pat: string, i: int)
    requires OccursAt(pat, s, i)
    ensures Contains(s, pat)
  {
    ContainsIff(s, pat);
  }

  /** A token: non-empty and free of delimiters. */
  predicate IsToken(t: string, delims: set<char>)
  {
    |t| > 0 && forall k :: 0 <= k < |t| ==> t[k] !in delims
  }

  /** Index of the first delimiter in `s`, or `|s|` when there is none. */
  function TokenEnd(s: string, delims: set<char>): (e: nat)
    ensures e <= |s|
    ensures forall k :: 0 <= k < e ==> s[k] !in delims
    ensures e < |s| ==> s[e] in delims
  {
    if s == [] || s[0] in delims then 0 else 1 + TokenEnd(s[1..], delims)
  }

  /** The tokens that repeated `strtok(…, delims)` calls return, in order:
      runs of delimiters are skipped, so no token is empty. */
  function Tokens(s: string, delims: set<char>): seq<string>
    decreases |s|
  {
    if s == [] then []
    else if s[0] in delims then Tokens(s[1..], delims)
    else
      var e := TokenEnd(s, delims);
      [s[..e]] + Tokens(s[e..], delims)
  }

  /** Every token is non-empty and free of delimiters. */
  lemma {:induction false} TokensAreTokens(s: string, delims: set<char>)
    ensures forall i :: 0 <= i < |Tokens(s, delims)| ==> IsToken(Tokens(s, delims)[i], delims)
    decreases |s|
  {
    if s == [] {
    } else if s[0] in delims {
      TokensAreTokens(s[1..], delims);
    } else {
      var e := TokenEnd(s, delims);
      TokensAreTokens(s[e..], delims);
    }
  }

  /** The text `ts[0] sep ts[1] sep … ts[n-1]`. */
  function Join(ts: seq<string>, sep: char): string
  {
    if |ts| == 0 then []
    else if |ts| == 1 then ts[0]
    else ts[0] + [sep] + Join(ts[1..], sep)
  }

  /** A token followed by a delimiter or by the end of the text is the next token. */
  lemma TokensOfTokenThen(t: string, rest: string, delims: set<char>)
    requires IsToken(t, delims)
    requires rest == [] || rest[0] in delims
    ensures Tokens(t + rest, delims) == [t] + Tokens(rest, delims)
  {
    var s := t + rest;
    var e := TokenEnd(s, delims);
    assert forall k :: 0 <= k < |t| ==> s[k] == t[k];
    assert rest != [] ==> s[|t|] == rest[0];
    assert e == |t|;
    assert s[..e] == t && s[e..] == rest;
  }

  /** The same step at a position of a longer text: a delimiter-free run
      that starts at `pos` and ends at a delimiter or at the end of the text
      is the next token from `pos`. */
  lemma TokensFromPosition(s: string, pos: nat, end: nat, delims: set<char>)
    requires pos < end <= |s|
    requires forall k :: pos <= k < end ==> s[k] !in delims
    requires end == |s| || s[end] in delims
    ensures Tokens(s[pos..], delims) == [s[pos..end]] + Tokens(s[end..], delims)
  {
    assert s[pos..] == s[pos..end] + s[end..];
    TokensOfTokenThen(s[pos..end], s[end..], delims);
  }

  /** Tokenising joined tokens gives the tokens back. */
  lemma {:induction false} TokensOfJoin(ts: seq<string>, sep: char, delims: set<char>)
    requires sep in delims
    requires forall i :: 0 <= i < |ts| ==> IsToken(ts[i], delims)
    ensures Tokens(Join(ts, sep), delims) == ts
  {
    if |ts| == 1 {
      TokensOfTokenThen(ts[0], [], delims);
      assert ts[0] + [] == ts[0];
    } else if |ts| > 1 {
      var rest := [sep] + Join(ts[1..], sep);
      TokensOfTokenThen(ts[0], rest, delims);
      assert ts[0] + [sep] + Join(ts[1..], sep) == ts[0] + rest;
      assert rest[1..] == Join(ts[1..], sep);
      TokensOfJoin(ts[1..], sep, delims);
      assert ts == [ts[0]] + ts[1..];
    }
  }

  /** Joining tokens with a separator that is not a delimiter gives one token. */
  lemma {:induction false} JoinIsToken(ts: seq<string>, sep: char, delims: set<char>)
    requires |ts| > 0 && sep !in delims
    requires forall i :: 0 <= i < |ts| ==> IsToken(ts[i], delims)
    ensures IsToken(Join(ts, sep), delims)
  {
    if |ts| > 1 {
      JoinIsToken(ts[1..], sep, delims);
      var j := Join(ts[1..], sep);
      assert forall k :: 0 <= k < |ts[0]| ==> (ts[0] + [sep] + j)[k] == ts[0][k];
      assert forall k :: |ts[0]| < k < |ts[0]| + 1 + |j| ==> (ts[0] + [sep] + j)[k] == j[k - |ts[0]| - 1];
    }
  }

  /** A token for a set of delimiters is one for any smaller set. */
  lemma TokenForFewerDelims(t: string, delims: set<char>, fewer: set<char>)
    requires IsToken(t, delims) && fewer <= delims
    ensures IsToken(t, fewer)
  {
  }

  /** The separators `isspace` accepts, which end a `%s` conversion. */
  const Whitespace: set<char> := {' ', '\t', '\n', '\U{B}', '\U{C}', '\r'}
}

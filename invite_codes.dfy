/**
 * Invite codes of the dashboard (app/dashboard/page.tsx): generation
 * (`generateInviteCode`) and the normalisation applied to a typed code
 * before it is looked up (`joinCode.trim().toUpperCase()`).
 *
 * `Math.random()` is replaced by the sequence of alphabet indices it
 * would have produced, one per character.
 */
module InviteCodes {
  import opened Wrappers

  /** The 32 characters codes are made of: no I, O, 0 or 1. */
  const Alphabet: string := "ABCDEFGHJKLMNPQRSTUVWXYZ23456789"
  const CodeLength: nat := 6

  /** A string that `generateInviteCode` can produce. */
  predicate IsInviteCode(s: string) {
    |s| == CodeLength && forall k :: 0 <= k < |s| ==> s[k] in Alphabet
  }

  /** Indices as `Math.floor(Math.random() * chars.length)` yields them: one per character, below 32. */
  predicate ValidPicks(picks: seq<nat>) {
    |picks| == CodeLength && forall k :: 0 <= k < |picks| ==> picks[k] < |Alphabet|
  }

  /** `generateInviteCode()`: six characters, the k-th one chosen by `picks[k]`. */
  method GenerateInviteCode(picks: seq<nat>) returns (s: string)
    requires ValidPicks(picks)
    ensures |s| == CodeLength
    ensures forall k :: 0 <= k < CodeLength ==> s[k] == Alphabet[picks[k]]
    ensures IsInviteCode(s)
  {
    s := "";
    for i := 0 to CodeLength
      invariant |s| == i
      invariant forall k :: 0 <= k < i ==> s[k] == Alphabet[picks[k]]
    {
      s := s + [Alphabet[picks[i]]];
    }
  }

  /** The position of `c` in `s`. */
  function IndexIn(c: char, s: string): (i: nat)
    requires c in s
    ensures i < |s| && s[i] == c
  {
    if s[0] == c then 0 else 1 + IndexIn(c, s[1..])
  }

  /** Upper-case letters other than I and O, and the digits 2 to 9. */
  predicate IsCodeChar(c: char) {
    ('A' <= c <= 'Z' && c != 'I' && c != 'O') || ('2' <= c <= '9')
  }

  lemma AlphabetHasOnlyCodeChars()
    ensures forall k :: 0 <= k < |Alphabet| ==> IsCodeChar(Alphabet[k])
  {
  }

  /** The alphabet has 32 characters: exactly the upper-case letters and digits without the look-alikes I, O, 0 and 1. */
  lemma AlphabetCharacters(c: char)
    ensures |Alphabet| == 32
    ensures c in Alphabet <==> IsCodeChar(c)
    ensures 'I' !in Alphabet && 'O' !in Alphabet && '0' !in Alphabet && '1' !in Alphabet
  {
    AlphabetHasOnlyCodeChars();
    if IsCodeChar(c) {
      var i := if 'A' <= c <= 'H' then c as int - 'A' as int
               else if 'J' <= c <= 'N' then c as int - 'J' as int + 8
               else if 'P' <= c <= 'Z' then c as int - 'P' as int + 13
               else c as int - '2' as int + 24;
      assert Alphabet[i] == c;
    }
  }

  /** Every invite code is the one generated from some valid picks. */
  lemma EveryCodeIsGenerable(code: string)
    requires IsInviteCode(code)
    ensures var picks := seq(CodeLength, k requires 0 <= k < CodeLength => IndexIn(code[k], Alphabet));
            ValidPicks(picks) && forall k :: 0 <= k < CodeLength ==> Alphabet[picks[k]] == code[k]
  {
  }

  // ---------------------------------------------------------------------
  // trim() and toUpperCase()
  // ---------------------------------------------------------------------

  /** The characters `String.prototype.trim` removes: ECMAScript WhiteSpace and LineTerminator. */
  predicate IsWhitespace(c: char) {
    || c == '\t' || c == '\n' || c == '\U{000B}' || c == '\U{000C}' || c == '\r' || c == ' '
    || c == '\U{00A0}' || c == '\U{1680}' || ('\U{2000}' <= c <= '\U{200A}')
    || c == '\U{2028}' || c == '\U{2029}' || c == '\U{202F}' || c == '\U{205F}'
    || c == '\U{3000}' || c == '\U{FEFF}'
  }

  predicate AllWhitespace(s: string) {
    forall k :: 0 <= k < |s| ==> IsWhitespace(s[k])
  }

  /** Leading whitespace removed: what is dropped is whitespace, and what is left does not start with it. */
  function TrimStart(s: string): (r: string)
    ensures |r| <= |s| && r == s[|s| - |r|..]
    ensures AllWhitespace(s[..|s| - |r|])
    ensures r == [] || !IsWhitespace(r[0])
  {
    if s != [] && IsWhitespace(s[0]) then TrimStart(s[1..]) else s
  }

  /** Trailing whitespace removed: what is dropped is whitespace, and what is left does not end with it. */
  function TrimEnd(s: string): (r: string)
    ensures |r| <= |s| && r == s[..|r|]
    ensures AllWhitespace(s[|r|..])
    ensures r == [] || !IsWhitespace(r[|r| - 1])
  {
    if s != [] && IsWhitespace(s[|s| - 1]) then TrimEnd(s[..|s| - 1]) else s
  }

  /** `s.trim()`: nothing is left of an all-whitespace string, and what is left starts and ends with non-whitespace. */
  function Trim(s: string): (t: string)
    ensures |t| <= |s|
    ensures t == [] <==> AllWhitespace(s)
    ensures t == [] || (!IsWhitespace(t[0]) && !IsWhitespace(t[|t| - 1]))
  {
    var r := TrimStart(s);
    var t := TrimEnd(r);
    assert t != [] ==> t[0] == r[0];
    assert r != [] ==> r[0] == s[|s| - |r|];
    assert r == [] ==> AllWhitespace(s) by {
      if r == [] { assert s[..|s| - |r|] == s; }
    }
    assert r[0..] == r;
    t
  }

  /** Upper case for one character; only the ASCII letters a-z change. */
  function UpperChar(c: char): (u: char)
    ensures IsWhitespace(u) <==> IsWhitespace(c)
  {
    if 'a' <= c <= 'z' then (c as int - 32) as char else c
  }

  /** Lower case for one ASCII letter, for typing codes in lower case. */
  function LowerChar(c: char): char {
    if 'A' <= c <= 'Z' then (c as int + 32) as char else c
  }

  /** `s.toUpperCase()` */
  function ToUpper(s: string): (u: string)
    ensures |u| == |s| && forall k :: 0 <= k < |s| ==> u[k] == UpperChar(s[k])
  {
    seq(|s|, k requires 0 <= k < |s| => UpperChar(s[k]))
  }

  /** `joinCode.trim().toUpperCase()`: empty exactly for all-whitespace input, otherwise without surrounding whitespace. */
  function Normalize(s: string): (n: string)
    ensures n == [] <==> AllWhitespace(s)
    ensures n == [] || (!IsWhitespace(n[0]) && !IsWhitespace(n[|n| - 1]))
  {
    var t := Trim(s);
    var n := ToUpper(t);
    assert n != [] ==> UpperChar(t[0]) == n[0] && UpperChar(t[|t| - 1]) == n[|n| - 1];
    n
  }

  /**
   * The code the join screen looks up: none when nobody is signed in or the
   * input is empty (the `!user || !joinCode` guard), else the normalised input.
   */
  function JoinLookupCode(signedIn: bool, joinCode: string): (q: Option<string>)
    ensures q.None? <==> !signedIn || joinCode == ""
    ensures q.Some? ==> q.value == Normalize(joinCode)
  {
    if !signedIn || joinCode == "" then None else Some(Normalize(joinCode))
  }

  /** Leading whitespace is dropped whatever follows it. */
  lemma {:induction false} TrimStartSkips(pre: string, t: string)
    requires AllWhitespace(pre)
    ensures TrimStart(pre + t) == TrimStart(t)
  {
    if pre != [] {
      assert (pre + t)[0] == pre[0];
      assert (pre + t)[1..] == pre[1..] + t;
      TrimStartSkips(pre[1..], t);
    } else {
      assert pre + t == t;
    }
  }

  /** Trailing whitespace is dropped whatever precedes it. */
  lemma {:induction false} TrimEndSkips(t: string, post: string)
    requires AllWhitespace(post)
    ensures TrimEnd(t + post) == TrimEnd(t)
  {
    if post != [] {
      var post' := post[..|post| - 1];
      assert (t + post)[|t + post| - 1] == post[|post| - 1];
      assert (t + post)[..|t + post| - 1] == t + post';
      TrimEndSkips(t, post');
    } else {
      assert t + post == t;
    }
  }

  /** Padding that is all whitespace is exactly what trimming removes. */
  lemma TrimPadding(pre: string, t: string, post: string)
    requires AllWhitespace(pre) && AllWhitespace(post)
    requires t != [] && !IsWhitespace(t[0]) && !IsWhitespace(t[|t| - 1])
    ensures Trim(pre + t + post) == t
  {
    assert pre + t + post == pre + (t + post);
    TrimStartSkips(pre, t + post);
    assert (t + post)[0] == t[0];
    TrimEndSkips(t, post);
  }

  /** A code character, typed in either case, is not whitespace and upper-cases back to itself. */
  lemma CodeCharCases(c: char)
    requires IsCodeChar(c)
    ensures !IsWhitespace(c) && !IsWhitespace(LowerChar(c))
    ensures UpperChar(c) == c && UpperChar(LowerChar(c)) == c
  {
  }

  /** A code typed with surrounding whitespace and any mix of upper and lower case is found as generated. */
  lemma TypedCodeNormalizes(code: string, typed: string, pre: string, post: string)
    requires IsInviteCode(code)
    requires |typed| == |code| && forall k :: 0 <= k < |code| ==> typed[k] == code[k] || typed[k] == LowerChar(code[k])
    requires AllWhitespace(pre) && AllWhitespace(post)
    ensures JoinLookupCode(true, pre + typed + post) == Some(code)
  {
    forall k | 0 <= k < |typed| ensures !IsWhitespace(typed[k]) && UpperChar(typed[k]) == code[k] {
      AlphabetCharacters(code[k]);
      CodeCharCases(code[k]);
    }
    TrimPadding(pre, typed, post);
    assert ToUpper(typed) == code;
  }

  /** A generated code is left as it is by normalisation. */
  lemma GeneratedCodeIsNormal(code: string)
    requires IsInviteCode(code)
    ensures Normalize(code) == code
  {
    TypedCodeNormalizes(code, code, "", "");
    assert "" + code + "" == code;
  }

  /** Upper-casing twice is upper-casing once. */
  lemma ToUpperIdempotent(t: string)
    ensures ToUpper(ToUpper(t)) == ToUpper(t)
  {
    var u := ToUpper(t);
    forall k | 0 <= k < |u| ensures UpperChar(u[k]) == u[k] {
      assert u[k] == UpperChar(t[k]);
    }
  }

  /** A string that neither starts nor ends with whitespace is its own trim. */
  lemma CleanEndsUntrimmed(u: string)
    requires u == [] || (!IsWhitespace(u[0]) && !IsWhitespace(u[|u| - 1]))
    ensures Trim(u) == u
  {
    assert TrimStart(u) == u;
  }

  /** Normalising twice is normalising once. */
  lemma NormalizeIdempotent(s: string)
    ensures Normalize(Normalize(s)) == Normalize(s)
  {
    var t := Trim(s);
    var u := ToUpper(t);
    assert u == [] || (UpperChar(t[0]) == u[0] && UpperChar(t[|t| - 1]) == u[|u| - 1]);
    CleanEndsUntrimmed(u);
    ToUpperIdempotent(t);
  }
}

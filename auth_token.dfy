/** Extraction of the auth token from a ClientLogin reply (src/lib.rs:119-134). The source runs
    the regular expression `Auth=(?P<authtoken>\S+)` and keeps the capture of the first match;
    here the same match is found by a scan, and its contract is stated in terms of where the
    expression matches. */
module AuthToken {
  import opened Wrappers

  /** The characters `\s` matches in a Unicode regular expression: the White_Space property.
      `\S` is every other character. */
  predicate IsWhitespace(c: char) {
    || ('\t' <= c <= '\r')
    || c == ' '
    || c == '\U{85}'
    || c == '\U{A0}'
    || c == '\U{1680}'
    || ('\U{2000}' <= c <= '\U{200A}')
    || c == '\U{2028}'
    || c == '\U{2029}'
    || c == '\U{202F}'
    || c == '\U{205F}'
    || c == '\U{3000}'
  }

  /** What a successful login stores: a non-empty run of non-whitespace characters. */
  predicate IsToken(t: string) {
    |t| > 0 && forall i :: 0 <= i < |t| ==> !IsWhitespace(t[i])
  }

  /** The literal part of the expression. */
  const KEY: string := "Auth="

  predicate KeyAt(body: string, i: nat) {
    i + |KEY| <= |body| && body[i..i + |KEY|] == KEY
  }

  /** The expression matches at i: the literal `Auth=` stands at i and at least one
      non-whitespace character follows it. */
  predicate MatchesAt(body: string, i: nat) {
    KeyAt(body, i) && i + |KEY| < |body| && !IsWhitespace(body[i + |KEY|])
  }

  /** i is the leftmost position where the expression matches. */
  predicate LeftmostMatch(body: string, i: nat) {
    MatchesAt(body, i) && forall j :: 0 <= j < i ==> !MatchesAt(body, j)
  }

  /** The end of the maximal run of non-whitespace characters that starts at j. */
  function RunEnd(body: string, j: nat): (e: nat)
    requires j <= |body|
    ensures j <= e <= |body|
    ensures forall k :: j <= k < e ==> !IsWhitespace(body[k])
    ensures e == |body| || IsWhitespace(body[e])
    decreases |body| - j
  {
    if j == |body| || IsWhitespace(body[j]) then j else RunEnd(body, j + 1)
  }

  /** The capture group of the match at i: `\S+` is greedy and nothing follows it in the
      expression, so it takes the whole run. */
  function Capture(body: string, i: nat): string
    requires MatchesAt(body, i)
  {
    body[i + |KEY|..RunEnd(body, i + |KEY|)]
  }

  /** The leftmost match at or after position `from`. */
  function FindMatch(body: string, from: nat): (r: Option<nat>)
    requires from <= |body|
    ensures r.None? ==> forall j :: from <= j <= |body| ==> !MatchesAt(body, j)
    ensures r.Some? ==> from <= r.value < |body| && MatchesAt(body, r.value)
    ensures r.Some? ==> forall j :: from <= j < r.value ==> !MatchesAt(body, j)
    decreases |body| - from
  {
    if from == |body| then None
    else if MatchesAt(body, from) then Some(from)
    else FindMatch(body, from + 1)
  }

  /** The token a login stores, or None when the body has no match (the source's
      "Failed to parse login response"). */
  function ExtractAuthToken(body: string): (r: Option<string>)
    ensures r.None? <==> forall j :: 0 <= j <= |body| ==> !MatchesAt(body, j)
    ensures forall i :: LeftmostMatch(body, i) ==> r == Some(Capture(body, i))
    ensures r.Some? ==> IsToken(r.value)
  {
    match FindMatch(body, 0)
    case None => None
    case Some(i) => Some(Capture(body, i))
  }

  /** The capture is maximal: it ends at the end of the body or just before a whitespace
      character, never inside a run of non-whitespace. */
  lemma CaptureIsMaximal(body: string, i: nat)
    requires MatchesAt(body, i)
    ensures var e := i + |KEY| + |Capture(body, i)|;
      e <= |body| && (e == |body| || IsWhitespace(body[e]))
  {
  }

  /** A run that ends at the end of the body or at whitespace is the run RunEnd finds. */
  lemma RunEndOfToken(body: string, j: nat, t: string)
    requires j + |t| <= |body| && body[j..j + |t|] == t && IsToken(t)
    requires j + |t| == |body| || IsWhitespace(body[j + |t|])
    ensures RunEnd(body, j) == j + |t|
  {
  }

  /** A login reply laid out as lines `<preamble>Auth=<token><rest>`, where the preamble holds no
      `Auth=` and the token ends the line, yields that token. */
  lemma {:induction false} ExtractAfterPreamble(preamble: string, token: string, rest: string)
    requires forall i :: 0 <= i <= |preamble| ==> !KeyAt(preamble, i)
    requires IsToken(token)
    requires rest == [] || IsWhitespace(rest[0])
    ensures ExtractAuthToken(preamble + KEY + token + rest) == Some(token)
  {
    var body := preamble + KEY + token + rest;
    var p := |preamble|;
    assert body[p..p + |KEY|] == KEY;
    assert body[p + |KEY|] == token[0];
    assert MatchesAt(body, p);
    forall j | 0 <= j < p
      ensures !MatchesAt(body, j)
    {
      if j + |KEY| <= p {
        assert body[j..j + |KEY|] == preamble[j..j + |KEY|];
        assert !KeyAt(preamble, j);
      } else {
        // the `=` of a key starting at j would fall on one of the letters "Auth"
        assert body[j + 4] == KEY[j + 4 - p];
        assert body[j..j + |KEY|][4] == body[j + 4];
      }
    }
    assert LeftmostMatch(body, p);
    assert body[p + |KEY|..p + |KEY| + |token|] == token;
    RunEndOfToken(body, p + |KEY|, token);
  }

  /** The reply of the ClientLogin exchange in its usual form. */
  lemma ExtractFromUsualReply()
    ensures ExtractAuthToken("SID=xxx\nAuth=abc123\n") == Some("abc123")
  {
    var preamble := "SID=xxx\n";
    assert "SID=xxx\nAuth=abc123\n" == preamble + KEY + "abc123" + "\n";
    assert 'A' !in preamble;
    NoKeyWithoutA(preamble);
    ExtractAfterPreamble(preamble, "abc123", "\n");
  }

  lemma NoKeyWithoutA(s: string)
    requires 'A' !in s
    ensures forall i :: 0 <= i <= |s| ==> !KeyAt(s, i)
  {
    forall i | 0 <= i <= |s|
      ensures !KeyAt(s, i)
    {
      if i + |KEY| <= |s| {
        assert s[i..i + |KEY|][0] == s[i];
      }
    }
  }

  /** An earlier `Auth=` that whitespace follows is not a match; the next one is taken. */
  lemma ExtractSkipsEmptyKey()
    ensures ExtractAuthToken("Auth= \nAuth=tok") == Some("tok")
  {
    var body := "Auth= \nAuth=tok";
    assert body == "Auth= \n" + KEY + "tok";
    assert !MatchesAt(body, 0);
    forall j | 1 <= j < 7
      ensures !MatchesAt(body, j)
    {
      assert body[j..j + |KEY|][0] == body[j];
    }
    assert body[7..7 + |KEY|] == KEY;
    assert LeftmostMatch(body, 7);
    assert |body| == 12 + |"tok"| && body[12..] == "tok";
    assert IsToken("tok");
    RunEndOfToken(body, 12, "tok");
  }
}

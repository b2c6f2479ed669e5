/** `authHeader.split(' ')[1]`: the second space-separated field of an
    Authorization header, as JavaScript computes it. */
module Header {
  import opened Wrappers

  /** Position of the first space, or `|s|` when there is none. */
  function SpaceIndex(s: string): (k: nat)
    ensures k <= |s|
    ensures forall j :: 0 <= j < k ==> s[j] != ' '
    ensures k < |s| ==> s[k] == ' '
  {
    if s == [] then 0
    else if s[0] == ' ' then 0
    else 1 + SpaceIndex(s[1..])
  }

  /** `s.split(' ')[1]`: `None` (undefined) when `s` has no space; otherwise
      the text between the first space and the next one, or the end. */
  function SecondField(s: string): (r: Option<string>)
    ensures r.None? <==> ' ' !in s
    ensures r.Some? ==> ' ' !in r.value
    ensures r.Some? ==> SpaceIndex(s) < |s| &&
                          var rest := s[SpaceIndex(s) + 1..];
                          r.value <= rest && (|r.value| == |rest| || rest[|r.value|] == ' ')
  {
    var i := SpaceIndex(s);
    if i == |s| then None
    else
      var rest := s[i + 1..];
      Some(rest[..SpaceIndex(rest)])
  }

  /** The space index of a word followed by a space is the word's length. */
  lemma {:induction false} SpaceIndexAfterWord(a: string, b: string)
    requires ' ' !in a
    ensures SpaceIndex(a + " " + b) == |a|
  {
    if a != [] {
      assert (a + " " + b)[1..] == a[1..] + " " + b;
      SpaceIndexAfterWord(a[1..], b);
    }
  }

  /** `(scheme + " " + token).split(' ')[1] == token` for space-free words. */
  lemma SecondFieldOfPair(scheme: string, token: string)
    requires ' ' !in scheme && ' ' !in token
    ensures SecondField(scheme + " " + token) == Some(token)
  {
    var s := scheme + " " + token;
    SpaceIndexAfterWord(scheme, token);
    assert s[|scheme| + 1..] == token;
    assert token[..|token|] == token;
  }

  /** The header a client sends: `Bearer <token>`. */
  function Bearer(token: string): string {
    "Bearer " + token
  }

  lemma BearerSecondField(token: string)
    requires ' ' !in token
    ensures SecondField(Bearer(token)) == Some(token)
  {
    assert Bearer(token) == "Bearer" + " " + token;
    SecondFieldOfPair("Bearer", token);
  }
}

/** The transcript tokens both TypeScript advert detectors send to the language
    model: `<` + pad + `[s=S] T [e=E]` + pad + `>`, where S and E are the times
    printed with `toFixed(2)`, T is the trimmed text, and pad is empty in
    source/advertDetector.ts and one space in src/advertDetector.ts. Tokens are
    joined by single spaces. */
module SegmentTokens {
  import opened Wrappers
  import opened Models
  import opened Text
  import opened Numbers

  function Head(pad: string): string
  {
    "<" + pad + "[s="
  }

  function Tail(pad: string): string
  {
    "]" + pad + ">"
  }

  /** The token of one segment. */
  function Token(segment: TextSegment, pad: string): string
  {
    Head(pad) + (ToFixed2(segment.startSeconds) + ("] " + (Trim(segment.text) + (" [e=" + (ToFixed2(segment.endSeconds) + Tail(pad))))))
  }

  lemma PrefixOf(a: string, b: string)
    ensures |a| <= |a + b| && (a + b)[..|a|] == a
  {
  }

  /** Every token opens with its iteration's head. */
  lemma TokenOpening(segment: TextSegment, pad: string)
    ensures |Head(pad)| <= |Token(segment, pad)| && Token(segment, pad)[..|Head(pad)|] == Head(pad)
  {
    PrefixOf(Head(pad), ToFixed2(segment.startSeconds) + ("] " + (Trim(segment.text) + (" [e=" + (ToFixed2(segment.endSeconds) + Tail(pad))))));
  }

  /** The tokens in input order, separated by single spaces; `""` for none. */
  function Serialise(segments: seq<TextSegment>, pad: string): (s: string)
    ensures segments == [] ==> s == ""
  {
    Join(seq(|segments|, i requires 0 <= i < |segments| => Token(segments[i], pad)), " ")
  }

  /** Serialising two non-empty runs is serialising each and joining them with one
      space: the tokens keep their input order. */
  lemma SerialiseAppend(a: seq<TextSegment>, b: seq<TextSegment>, pad: string)
    requires a != [] && b != []
    ensures Serialise(a + b, pad) == Serialise(a, pad) + " " + Serialise(b, pad)
  {
    var ta := seq(|a|, i requires 0 <= i < |a| => Token(a[i], pad));
    var tb := seq(|b|, i requires 0 <= i < |b| => Token(b[i], pad));
    var tab := seq(|a + b|, i requires 0 <= i < |a + b| => Token((a + b)[i], pad));
    forall i | 0 <= i < |a + b| ensures tab[i] == (ta + tb)[i] {
      if i < |a| {
        assert (a + b)[i] == a[i];
      } else {
        assert (a + b)[i] == b[i - |a|];
      }
    }
    assert tab == ta + tb;
    JoinAppend(ta, tb, " ");
  }

  /** Reads a token back: the two times and the text between `] ` and the last
      ` [e=`. */
  function ParseToken(token: string, pad: string): Option<TextSegment>
  {
    var head, tail := Head(pad), Tail(pad);
    if |token| < |head| + |tail| || token[..|head|] != head || token[|token| - |tail|..] != tail then None
    else ParseInner(token[|head|..|token| - |tail|])
  }

  /** `S] T [e=E`. */
  function ParseInner(inner: string): Option<TextSegment>
  {
    var i := IndexOf(inner, ']');
    var afterStart := inner[i..];
    if |afterStart| < 2 || afterStart[..2] != "] " then None
    else
      match (ParseFixed2(inner[..i]), ParseBody(afterStart[2..]))
      case (Some(s), Some((t, e))) => Some(TextSegment(s, e, t))
      case _ => None
  }

  /** `T [e=E`. */
  function ParseBody(body: string): Option<(string, int)>
  {
    var j := LastIndexOf(body, '=');
    if j < 3 || body[j - 3..j + 1] != " [e=" then None
    else
      match ParseFixed2(body[j + 1..])
      case Some(e) => Some((body[..j - 3], e))
      case None => None
  }

  lemma BodyOf(t: string, e: string)
    requires AllNumberChars(e)
    ensures var body := t + (" [e=" + e);
      var j := |t| + 3;
      && LastIndexOf(body, '=') == j
      && body[j - 3..j + 1] == " [e=" && body[..j - 3] == t && body[j + 1..] == e
  {
    var body := t + (" [e=" + e);
    var j := |t| + 3;
    assert body[j] == '=';
    forall k | j < k < |body| ensures body[k] != '=' {
      assert body[k] == e[k - j - 1];
      assert IsNumberChar(e[k - j - 1]);
    }
    LastIndexOfIs(body, '=', j);
  }

  lemma {:induction false} LastIndexOfIs(s: string, c: char, j: nat)
    requires j < |s| && s[j] == c
    requires forall k :: j < k < |s| ==> s[k] != c
    ensures LastIndexOf(s, c) == j
  {
    if j < |s| - 1 {
      LastIndexOfIs(s[..|s| - 1], c, j);
    }
  }

  lemma InnerOf(s: string, t: string, e: string)
    requires AllNumberChars(s) && AllNumberChars(e)
    ensures var inner := s + ("] " + (t + (" [e=" + e)));
      && IndexOf(inner, ']') == |s|
      && inner[..|s|] == s
      && inner[|s|..][..2] == "] "
      && inner[|s|..][2..] == t + (" [e=" + e)
  {
    var inner := s + ("] " + (t + (" [e=" + e)));
    assert inner[|s|] == ']';
    assert forall k :: 0 <= k < |s| ==> inner[k] != ']' by {
      forall k | 0 <= k < |s| ensures inner[k] != ']' { assert IsNumberChar(s[k]); }
    }
  }

  /** A token with abstract time texts `s` and `e` and text `t` parses back into
      the times those texts denote and `t` itself. */
  lemma ParseTokenOf(s: string, t: string, e: string, pad: string, start: int, end: int)
    requires AllNumberChars(s) && ParseFixed2(s) == Some(start)
    requires AllNumberChars(e) && ParseFixed2(e) == Some(end)
    ensures ParseToken(Head(pad) + (s + ("] " + (t + (" [e=" + (e + Tail(pad)))))), pad) == Some(TextSegment(start, end, t))
  {
    var head, tail := Head(pad), Tail(pad);
    var inner := s + ("] " + (t + (" [e=" + e)));
    var token := head + (s + ("] " + (t + (" [e=" + (e + tail)))));
    assert token == head + inner + tail;
    assert token[..|head|] == head && token[|token| - |tail|..] == tail;
    assert token[|head|..|token| - |tail|] == inner;
    ParseInnerOf(s, t, e, start, end);
  }

  lemma ParseInnerOf(s: string, t: string, e: string, start: int, end: int)
    requires AllNumberChars(s) && ParseFixed2(s) == Some(start)
    requires AllNumberChars(e) && ParseFixed2(e) == Some(end)
    ensures ParseInner(s + ("] " + (t + (" [e=" + e)))) == Some(TextSegment(start, end, t))
  {
    InnerOf(s, t, e);
    BodyOf(t, e);
  }

  /** Every token gives back both times exactly and the trimmed text, whatever the
      text contains. */
  lemma TokenRoundTrip(segment: TextSegment, pad: string)
    ensures ParseToken(Token(segment, pad), pad)
            == Some(TextSegment(segment.startSeconds, segment.endSeconds, Trim(segment.text)))
  {
    ToFixed2RoundTrip(segment.startSeconds);
    ToFixed2RoundTrip(segment.endSeconds);
    ParseTokenOf(ToFixed2(segment.startSeconds), Trim(segment.text), ToFixed2(segment.endSeconds), pad,
                 segment.startSeconds, segment.endSeconds);
  }
}

/** Whitespace-separated fields of a string, in the manner of Go's
    `strings.Fields`: the string is cut around each maximal run of white
    space, and no field is ever empty. */
module TextFields {

  /** White space as Go's `unicode.IsSpace` defines it: the ASCII controls
      TAB, LF, VT, FF, CR, the space itself, NEL, NBSP and the other code
      points carrying the Unicode White_Space property. */
  predicate IsSpace(c: char) {
    c == ' ' || ('\t' <= c <= '\r') || c == '\U{85}' || c == '\U{A0}'
    || c == '\U{1680}' || ('\U{2000}' <= c <= '\U{200A}')
    || c == '\U{2028}' || c == '\U{2029}' || c == '\U{202F}'
    || c == '\U{205F}' || c == '\U{3000}'
  }

  /** No character of `s` is white space. */
  predicate NoSpace(s: string) {
    forall i :: 0 <= i < |s| ==> !IsSpace(s[i])
  }

  /** Every character of `s` is white space (the empty string included). */
  predicate Blank(s: string) {
    forall i :: 0 <= i < |s| ==> IsSpace(s[i])
  }

  /** A field: a non-empty run of non-space characters. */
  predicate IsField(w: string) {
    |w| > 0 && NoSpace(w)
  }

  /** The longest prefix of `s` that holds no white space. */
  function LeadingWord(s: string): (w: string)
    ensures w <= s && NoSpace(w)
    ensures |w| < |s| ==> IsSpace(s[|w|])
  {
    if s == [] || IsSpace(s[0]) then [] else [s[0]] + LeadingWord(s[1..])
  }

  /** The fields of `s`, left to right. */
  function Fields(s: string): (r: seq<string>)
    ensures forall i :: 0 <= i < |r| ==> IsField(r[i])
    decreases |s|
  {
    if s == [] then []
    else if IsSpace(s[0]) then Fields(s[1..])
    else
      var w := LeadingWord(s);
      [w] + Fields(s[|w|..])
  }

  /** `s` with every white-space character deleted. */
  function RemoveSpaces(s: string): (r: string)
    ensures NoSpace(r) && |r| <= |s|
  {
    if s == [] then []
    else (if IsSpace(s[0]) then [] else [s[0]]) + RemoveSpaces(s[1..])
  }

  /** The strings of `ws` glued together with nothing in between. */
  function Concat(ws: seq<string>): string {
    if ws == [] then [] else ws[0] + Concat(ws[1..])
  }

  /** The strings of `ws` glued together with one space between neighbours. */
  function JoinSpaced(ws: seq<string>): string {
    if |ws| == 0 then []
    else if |ws| == 1 then ws[0]
    else ws[0] + " " + JoinSpaced(ws[1..])
  }

  lemma {:induction false} RemoveSpacesAppend(a: string, b: string)
    ensures RemoveSpaces(a + b) == RemoveSpaces(a) + RemoveSpaces(b)
  {
    if a == [] {
      assert a + b == b;
    } else {
      assert (a + b)[1..] == a[1..] + b;
      RemoveSpacesAppend(a[1..], b);
    }
  }

  lemma {:induction false} RemoveSpacesOfNoSpace(w: string)
    requires NoSpace(w)
    ensures RemoveSpaces(w) == w
  {
    if w != [] {
      RemoveSpacesOfNoSpace(w[1..]);
    }
  }

  /** Cutting a string into fields loses exactly its white space: the
      fields, glued back together, are the string with its spaces deleted. */
  lemma {:induction false} FieldsKeepAllNonSpace(s: string)
    ensures Concat(Fields(s)) == RemoveSpaces(s)
    decreases |s|
  {
    if s == [] {
    } else if IsSpace(s[0]) {
      FieldsKeepAllNonSpace(s[1..]);
    } else {
      var w := LeadingWord(s);
      var rest := s[|w|..];
      assert s == w + rest;
      FieldsKeepAllNonSpace(rest);
      RemoveSpacesAppend(w, rest);
      RemoveSpacesOfNoSpace(w);
      assert ([w] + Fields(rest))[1..] == Fields(rest);
    }
  }

  /** A field followed by white space (or by nothing) is read as the leading word. */
  lemma {:induction false} LeadingWordOfField(w: string, rest: string)
    requires NoSpace(w)
    requires rest == [] || IsSpace(rest[0])
    ensures LeadingWord(w + rest) == w
  {
    if w == [] {
    } else {
      assert (w + rest)[1..] == w[1..] + rest;
      LeadingWordOfField(w[1..], rest);
    }
  }

  /** Splitting undoes joining: fields joined with single spaces split back
      into the same fields. */
  lemma {:induction false} FieldsOfJoinSpaced(ws: seq<string>)
    requires forall i :: 0 <= i < |ws| ==> IsField(ws[i])
    ensures Fields(JoinSpaced(ws)) == ws
  {
    if |ws| == 0 {
    } else if |ws| == 1 {
      var w := ws[0];
      LeadingWordOfField(w, []);
      assert w + [] == w;
      assert w[|w|..] == [];
    } else {
      var w := ws[0];
      var tail := " " + JoinSpaced(ws[1..]);
      var s := w + tail;
      assert JoinSpaced(ws) == s;
      LeadingWordOfField(w, tail);
      assert s[|w|..] == tail;
      assert tail[1..] == JoinSpaced(ws[1..]);
      FieldsOfJoinSpaced(ws[1..]);
    }
  }

  /** Reading fields from the front: white space, then a field that ends
      at white space or at the end, gives that field followed by the
      fields of what remains. */
  lemma {:induction false} FieldsOfBlankThenField(pre: string, w: string, rest: string)
    requires Blank(pre) && IsField(w)
    requires rest == [] || IsSpace(rest[0])
    ensures Fields(pre + w + rest) == [w] + Fields(rest)
    decreases |pre|
  {
    var s := pre + w + rest;
    if pre == [] {
      assert s == w + rest;
      LeadingWordOfField(w, rest);
      assert s[|w|..] == rest;
    } else {
      assert s[1..] == pre[1..] + w + rest;
      FieldsOfBlankThenField(pre[1..], w, rest);
    }
  }

  /** The converse: the first field of `s` sits after a blank prefix and
      is followed by white space or by the end, and the rest of the fields
      are the fields of what follows it. */
  lemma {:induction false} FirstFieldOf(s: string) returns (pre: string, rest: string)
    requires Fields(s) != []
    ensures Blank(pre) && s == pre + Fields(s)[0] + rest
    ensures rest == [] || IsSpace(rest[0])
    ensures Fields(rest) == Fields(s)[1..]
    decreases |s|
  {
    if IsSpace(s[0]) {
      var pre', rest' := FirstFieldOf(s[1..]);
      pre, rest := [s[0]] + pre', rest';
      assert s == [s[0]] + s[1..];
    } else {
      var w := LeadingWord(s);
      pre, rest := [], s[|w|..];
      assert s == [] + w + rest;
      assert ([w] + Fields(rest))[1..] == Fields(rest);
    }
  }
}

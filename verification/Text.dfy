/** White space around text. */
module Text {
  /** The Unicode White_Space property. */
  predicate IsWhitespace(c: char) {
    var n := c as int;
    || 0x09 <= n <= 0x0d || n == 0x20 || n == 0x85 || n == 0xa0 || n == 0x1680
    || 0x2000 <= n <= 0x200a || n in {0x2028, 0x2029, 0x202f, 0x205f, 0x3000}
  }

  /** Its twenty-five characters. */
  lemma {:induction false} WhitespaceIs(c: char)
    ensures IsWhitespace(c) <==>
              c as int in {9, 10, 11, 12, 13, 32, 133, 160, 5760, 8192, 8193, 8194, 8195, 8196, 8197, 8198, 8199, 8200,
                           8201, 8202, 8232, 8233, 8239, 8287, 12288}
  {
  }

  function TrimStart(s: string): string {
    if s != "" && IsWhitespace(s[0]) then TrimStart(s[1..]) else s
  }

  function TrimEnd(s: string): string {
    if s != "" && IsWhitespace(s[|s| - 1]) then TrimEnd(s[..|s| - 1]) else s
  }

  function Trim(s: string): string { TrimEnd(TrimStart(s)) }

  predicate Blank(s: string) { forall i :: 0 <= i < |s| ==> IsWhitespace(s[i]) }

  /** Neither end is white space. */
  predicate Tight(s: string) { s != "" ==> !IsWhitespace(s[0]) && !IsWhitespace(s[|s| - 1]) }

  lemma {:induction false} TrimStartOf(a: string, s: string)
    requires Blank(a) && (s != "" ==> !IsWhitespace(s[0]))
    ensures TrimStart(a + s) == s
  {
    if a != "" {
      TrimStartOf(a[1..], s);
      assert (a + s)[1..] == a[1..] + s && (a + s)[0] == a[0];
    } else {
      assert a + s == s;
    }
  }

  lemma {:induction false} TrimEndOf(s: string, b: string)
    requires Blank(b) && (s != "" ==> !IsWhitespace(s[|s| - 1]))
    ensures TrimEnd(s + b) == s
  {
    if b != "" {
      TrimEndOf(s, b[..|b| - 1]);
      assert (s + b)[..|s + b| - 1] == s + b[..|b| - 1] && (s + b)[|s + b| - 1] == b[|b| - 1];
    } else {
      assert s + b == s;
    }
  }

  /** Trimming removes exactly the white space on both sides. */
  lemma {:induction false} TrimOf(a: string, s: string, b: string)
    requires Blank(a) && Blank(b) && Tight(s)
    ensures Trim(a + s + b) == s
  {
    if s == "" {
      assert a + s + b == a + b + "" && Blank(a + b);
      TrimStartOf(a + b, "");
    } else {
      assert a + s + b == a + (s + b) && (s + b)[0] == s[0];
      TrimStartOf(a, s + b);
      TrimEndOf(s, b);
    }
  }

  //// Paths as text

  /** The pieces between separators. */
  function Split(s: string): (r: seq<string>)
    ensures |r| >= 1
    ensures forall i :: 0 <= i < |r| ==> '/' !in r[i]
  {
    if s == "" then [""]
    else
      var rest := Split(s[1..]);
      if s[0] == '/' then [""] + rest else [[s[0]] + rest[0]] + rest[1..]
  }

  lemma {:induction false} SplitCons(c: char, s: string)
    ensures Split([c] + s) == if c == '/' then [""] + Split(s) else [[c] + Split(s)[0]] + Split(s)[1..]
  {
    assert ([c] + s)[1..] == s;
  }

  lemma {:induction false} SplitJoined(a: string, b: string)
    ensures Split(a + "/" + b) == Split(a) + Split(b)
  {
    if a == "" {
      assert Split(a) == [""];
      hide Split;
      SplitCons('/', b);
      assert a + "/" + b == ['/'] + b;
    } else {
      hide Split;
      SplitJoined(a[1..], b);
      JoinedCons(a[0], a[1..], b);
      assert a == [a[0]] + a[1..];
    }
  }

  lemma {:induction false} JoinedCons(c: char, a: string, b: string)
    requires Split(a + "/" + b) == Split(a) + Split(b)
    ensures Split([c] + a + "/" + b) == Split([c] + a) + Split(b)
  {
    hide Split;
    SplitCons(c, a + "/" + b);
    SplitCons(c, a);
    assert [c] + a + "/" + b == [c] + (a + "/" + b);
    InFront("", Split(a), Split(b));
    InFront([c] + Split(a)[0], Split(a), Split(b));
  }

  lemma {:induction false} InFront<T>(x: T, r: seq<T>, q: seq<T>)
    requires r != []
    ensures [x] + (r + q) == [x] + r + q && (r + q)[0] == r[0] && [x] + (r + q)[1..] == [x] + r[1..] + q
  {
    assert (r + q)[1..] == r[1..] + q;
  }

  /** A piece begins like the text, unless the text is empty or begins with a separator. */
  lemma {:induction false} FirstPiece(s: string)
    ensures if s == "" || s[0] == '/' then Split(s)[0] == "" else Split(s)[0] != "" && Split(s)[0][0] == s[0]
  {
  }

  predicate TwoDots(s: string) { exists i :: 0 <= i < |s| - 1 && s[i] == '.' && s[i + 1] == '.' }

  lemma {:induction false} TwoDotsCons(c: char, s: string)
    ensures TwoDots([c] + s) <==> (c == '.' && s != "" && s[0] == '.') || TwoDots(s)
  {
    var t := [c] + s;
    assert forall i :: 0 <= i < |s| ==> t[i + 1] == s[i];
    if TwoDots(s) {
      var i :| 0 <= i < |s| - 1 && s[i] == '.' && s[i + 1] == '.';
      assert t[i + 1] == '.' && t[i + 1 + 1] == '.';
    } else if c == '.' && s != "" && s[0] == '.' {
      assert t[0] == '.' && t[0 + 1] == '.';
    }
    if TwoDots(t) {
      var i :| 0 <= i < |t| - 1 && t[i] == '.' && t[i + 1] == '.';
      assert i > 0 ==> s[i - 1] == '.' && s[i - 1 + 1] == '.';
    }
  }

  /** Two dots in a row are in a text exactly if they are in one of its pieces. */
  lemma {:induction false} TwoDotsInPiece(s: string)
    ensures TwoDots(s) <==> exists k :: 0 <= k < |Split(s)| && TwoDots(Split(s)[k])
  {
    if s != "" {
      var rest := Split(s[1..]);
      TwoDotsInPiece(s[1..]);
      TwoDotsCons(s[0], s[1..]);
      assert s == [s[0]] + s[1..];
      FirstPiece(s[1..]);
      TwoDotsCons(s[0], rest[0]);
      hide TwoDots;
      if s[0] == '/' {
        assert Split(s)[0] == "" && Split(s)[1..] == rest;
        NoDots();
        ExistsShift(Split(s), rest);
      } else {
        assert Split(s)[0] == [s[0]] + rest[0] && Split(s)[1..] == rest[1..];
        ExistsHead(Split(s), rest);
      }
    } else {
      NoDots();
    }
  }

  lemma {:induction false} NoDots()
    ensures !TwoDots("")
  {
  }

  lemma {:induction false} ExistsShift(a: seq<string>, b: seq<string>)
    requires a != [] && a[1..] == b && !TwoDots(a[0])
    ensures (exists k :: 0 <= k < |a| && TwoDots(a[k])) <==> (exists k :: 0 <= k < |b| && TwoDots(b[k]))
  {
    hide TwoDots;
    assert forall k :: 0 <= k < |b| ==> b[k] == a[k + 1];
    if k :| 0 <= k < |b| && TwoDots(b[k]) { assert TwoDots(a[k + 1]); }
    if k :| 0 <= k < |a| && TwoDots(a[k]) { assert TwoDots(b[k - 1]); }
  }

  lemma {:induction false} ExistsHead(a: seq<string>, b: seq<string>)
    requires a != [] && b != [] && a[1..] == b[1..]
    ensures (exists k :: 0 <= k < |a| && TwoDots(a[k])) <==>
              TwoDots(a[0]) || (exists k :: 1 <= k < |b| && TwoDots(b[k]))
    ensures (exists k :: 0 <= k < |b| && TwoDots(b[k])) <==>
              TwoDots(b[0]) || (exists k :: 1 <= k < |b| && TwoDots(b[k]))
  {
    hide TwoDots;
    assert forall k :: 1 <= k < |b| ==> b[k] == b[1..][k - 1] == a[1..][k - 1] == a[k];
  }

  /** Where a path leads when it is read name by name: "" and "." stay, ".." goes up. */
  function Lexical(pieces: seq<string>): seq<string> {
    if pieces == [] then []
    else
      var before, p := Lexical(pieces[..|pieces| - 1]), pieces[|pieces| - 1];
      if p == "" || p == "." then before
      else if p == ".." then (if before == [] then [] else before[..|before| - 1])
      else before + [p]
  }

  /** A name leads into it, "" and "." nowhere, and ".." back out of the last name entered. */
  lemma {:induction false} LexicalSteps(ps: seq<string>, name: string)
    ensures Lexical([]) == []
    ensures Lexical(ps + [""]) == Lexical(ps) && Lexical(ps + ["."]) == Lexical(ps)
    ensures name !in {"", ".", ".."} ==> Lexical(ps + [name]) == Lexical(ps) + [name]
    ensures name !in {"", ".", ".."} ==> Lexical(ps + [name] + [".."]) == Lexical(ps)
    ensures Lexical(ps) == [] ==> Lexical(ps + [".."]) == []
  {
    assert (ps + [""])[..|ps|] == ps && (ps + ["."])[..|ps|] == ps && (ps + [".."])[..|ps|] == ps;
    assert (ps + [name])[..|ps|] == ps && (ps + [name] + [".."])[..|ps| + 1] == ps + [name];
    assert (Lexical(ps) + [name])[..|Lexical(ps)|] == Lexical(ps);
  }

  /** Without ".." a path only leads further down. */
  lemma {:induction false} LexicalBelow(ps: seq<string>, qs: seq<string>)
    requires forall k :: 0 <= k < |qs| ==> qs[k] != ".."
    ensures Lexical(ps) <= Lexical(ps + qs)
    decreases |qs|
  {
    if qs == [] {
      assert ps + qs == ps;
    } else {
      var init := qs[..|qs| - 1];
      LexicalBelow(ps, init);
      assert (ps + qs)[..|ps + qs| - 1] == ps + init;
    }
  }
}

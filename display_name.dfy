/** How the dashboard turns a reviewer's display name into the key it counts
    under: the name is split at every single space, as Rust's `split(" ")`
    does, and the first two pieces are joined again with one space. */
module DisplayName {
  import opened Wrappers

  /** The number of space characters in `s`. */
  function Spaces(s: string): nat
  {
    if s == [] then 0 else (if s[0] == ' ' then 1 else 0) + Spaces(s[1..])
  }

  lemma {:induction false} SpacesAppend(a: string, b: string)
    ensures Spaces(a + b) == Spaces(a) + Spaces(b)
  {
    if a == [] {
      assert a + b == b;
    } else {
      assert (a + b)[1..] == a[1..] + b;
      SpacesAppend(a[1..], b);
    }
  }

  lemma {:induction false} SpacesZero(s: string)
    ensures Spaces(s) == 0 <==> ' ' !in s
  {
    if s != [] {
      SpacesZero(s[1..]);
      assert s == [s[0]] + s[1..];
    }
  }

  /** `s.split(" ")`: the pieces between single spaces. Empty pieces are kept
      (two adjacent spaces give an empty piece in between), and a string
      without a space, the empty string included, is one piece. */
  function Split(s: string): (pieces: seq<string>)
    ensures |pieces| == Spaces(s) + 1
    ensures forall i :: 0 <= i < |pieces| ==> ' ' !in pieces[i]
    decreases |s|
  {
    if s == [] then [""]
    else if s[0] == ' ' then [""] + Split(s[1..])
    else
      var rest := Split(s[1..]);
      [[s[0]] + rest[0]] + rest[1..]
  }

  /** The pieces glued back together with one space between neighbours. */
  function Join(pieces: seq<string>): string
    requires |pieces| >= 1
    decreases |pieces|
  {
    if |pieces| == 1 then pieces[0] else pieces[0] + " " + Join(pieces[1..])
  }

  /** Splitting loses nothing: joining the pieces gives back the string. */
  lemma {:induction false} JoinSplit(s: string)
    ensures Join(Split(s)) == s
    decreases |s|
  {
    if s == [] {
    } else if s[0] == ' ' {
      JoinSplit(s[1..]);
      var pieces := Split(s);
      assert pieces[0] == "" && pieces[1..] == Split(s[1..]);
      assert s == [' '] + s[1..];
    } else {
      JoinSplit(s[1..]);
      var rest := Split(s[1..]);
      var pieces := Split(s);
      assert pieces == [[s[0]] + rest[0]] + rest[1..];
      if |rest| > 1 {
        assert pieces[1..] == rest[1..];
      }
      assert s == [s[0]] + s[1..];
    }
  }

  /** A leading run without spaces stays glued to the first piece of what
      follows it. */
  lemma {:induction false} SplitNoSpacePrefix(p: string, t: string)
    requires ' ' !in p
    ensures Split(p + t) == [p + Split(t)[0]] + Split(t)[1..]
    decreases |p|
  {
    if p == [] {
      assert p + t == t;
      assert p + Split(t)[0] == Split(t)[0];
      assert Split(t) == [Split(t)[0]] + Split(t)[1..];
    } else {
      assert p[0] in p && p[0] != ' ';
      assert (p + t)[0] == p[0];
      assert (p + t)[1..] == p[1..] + t;
      assert forall c :: c in p[1..] ==> c in p;
      SplitNoSpacePrefix(p[1..], t);
      var rest := Split(p[1..] + t);
      assert Split(p + t) == [[p[0]] + rest[0]] + rest[1..];
      assert [p[0]] + (p[1..] + Split(t)[0]) == p + Split(t)[0];
    }
  }

  /** Pieces without spaces survive a join followed by a split. */
  lemma {:induction false} SplitJoin(pieces: seq<string>)
    requires |pieces| >= 1
    requires forall i :: 0 <= i < |pieces| ==> ' ' !in pieces[i]
    ensures Split(Join(pieces)) == pieces
    decreases |pieces|
  {
    if |pieces| == 1 {
      SplitNoSpacePrefix(pieces[0], "");
      assert pieces[0] + "" == pieces[0];
    } else {
      var tail := Join(pieces[1..]);
      SplitJoin(pieces[1..]);
      assert Split(" " + tail) == [""] + Split(tail);
      SplitNoSpacePrefix(pieces[0], " " + tail);
      assert Join(pieces) == pieces[0] + (" " + tail);
      assert pieces[0] + "" == pieces[0];
      assert pieces == [pieces[0]] + pieces[1..];
    }
  }

  /** `key` is a two-piece key of `displayName`: the prefix of the name that
      holds exactly one space and runs up to the second space or to the end. */
  ghost predicate IsKeyOf(key: string, displayName: string)
  {
    && key <= displayName
    && Spaces(key) == 1
    && (|key| == |displayName| || displayName[|key|] == ' ')
  }

  /** The first two pieces, rejoined, form the two-piece key of the string;
      a second piece exists exactly when the string has a space. */
  lemma SplitKey(s: string)
    ensures |Split(s)| >= 2 <==> ' ' in s
    ensures |Split(s)| >= 2 ==> IsKeyOf(Split(s)[0] + " " + Split(s)[1], s)
  {
    SpacesZero(s);
    var pieces := Split(s);
    if |pieces| >= 2 {
      var key := pieces[0] + " " + pieces[1];
      JoinSplit(s);
      var tail := if |pieces| == 2 then "" else " " + Join(pieces[2..]);
      assert Join(pieces[1..]) == pieces[1] + tail;
      assert s == key + tail;
      SpacesAppend(pieces[0] + " ", pieces[1]);
      SpacesAppend(pieces[0], " ");
      SpacesZero(pieces[0]);
      SpacesZero(pieces[1]);
      assert Spaces(" ") == 1;
      if tail != "" {
        assert s[|key|] == tail[0];
      }
    }
  }

  /** The reviewer key: `format!("{} {}", name[0], name[1])` over the pieces of
      the display name. A key exists exactly when the name has a space, and it
      is the prefix that holds exactly one space and runs up to the second
      space or to the end: "John Q. Smith" gives "John Q.". A name without a
      space has no second piece; the dashboard panics there, and the model
      gives `None`. */
  function Normalize(displayName: string): (key: Option<string>)
    ensures key.Some? <==> ' ' in displayName
    ensures key.Some? ==> IsKeyOf(key.value, displayName)
  {
    SplitKey(displayName);
    var pieces := Split(displayName);
    if |pieces| < 2 then None else Some(pieces[0] + " " + pieces[1])
  }

  /** A key is its own key: normalising twice changes nothing. */
  lemma NormalizeIdempotent(displayName: string)
    requires Normalize(displayName).Some?
    ensures Normalize(Normalize(displayName).value) == Normalize(displayName)
  {
    var pieces := Split(displayName);
    var two := [pieces[0], pieces[1]];
    assert Join(two) == pieces[0] + " " + pieces[1];
    SplitJoin(two);
  }

  /** A two-token name is its own key. */
  lemma NormalizeTwoTokens()
    ensures Normalize("Jane Doe") == Some("Jane Doe")
  {
    var pieces := ["Jane", "Doe"];
    assert Join(pieces[1..]) == "Doe";
    assert Join(pieces) == "Jane Doe";
    SplitJoin(pieces);
    assert pieces[0] + " " + pieces[1] == "Jane Doe";
  }

  /** A middle name is kept and the surname dropped. */
  lemma NormalizeMiddleName()
    ensures Normalize("John Q. Smith") == Some("John Q.")
  {
    var pieces := ["John", "Q.", "Smith"];
    assert Join(pieces[2..]) == "Smith";
    assert Join(pieces[1..]) == "Q. Smith";
    assert Join(pieces) == "John Q. Smith";
    SplitJoin(pieces);
    assert pieces[0] + " " + pieces[1] == "John Q.";
  }

  /** Two adjacent spaces make an empty second piece, so the key ends in a space. */
  lemma NormalizeDoubleSpace()
    ensures Normalize("A  B") == Some("A ")
  {
    var pieces := ["A", "", "B"];
    assert Join(pieces[2..]) == "B";
    assert Join(pieces[1..]) == " B";
    assert Join(pieces) == "A  B";
    SplitJoin(pieces);
    assert pieces[0] + " " + pieces[1] == "A ";
  }

  /** A single-token name has no key: this is where the dashboard panics. */
  lemma NormalizeSingleToken()
    ensures Normalize("Madonna") == None
  {
  }
}

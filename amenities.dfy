/** The amenities field of the room form (src/pages/Admin.jsx). The form
    holds one line of text; saving splits it at commas, trims every piece
    and drops the empty ones, and editing a room renders its list back as
    the pieces joined with ", ". */
module Amenities {
  import Seqs

  /** The characters `String.prototype.trim` removes, restricted to a fixed
      set: space, tab, line feed, vertical tab, form feed, carriage return,
      no-break space and the byte order mark. */
  const Whitespace: set<char> := {' ', '\t', '\n', '\U{0B}', '\U{0C}', '\r', '\U{A0}', '\U{FEFF}'}

  /** Neither end of `s` is whitespace. */
  predicate IsTrimmed(s: string)
  {
    s == [] || (s[0] !in Whitespace && s[|s| - 1] !in Whitespace)
  }

  /** What `Parse` can produce and `Render` can give back unchanged: a
      non-empty, trimmed name without a comma. */
  predicate WellFormed(a: string)
  {
    a != [] && ',' !in a && IsTrimmed(a)
  }

  predicate AllWhitespace(s: string)
  {
    forall k :: 0 <= k < |s| ==> s[k] in Whitespace
  }

  /** Drops leading whitespace (TrimStartSpec says what is left). */
  function TrimStart(s: string): string
  {
    if s != [] && s[0] in Whitespace then TrimStart(s[1..]) else s
  }

  /** Drops trailing whitespace (TrimEndSpec says what is left). */
  function TrimEnd(s: string): string
  {
    if s != [] && s[|s| - 1] in Whitespace then TrimEnd(s[..|s| - 1]) else s
  }

  /** TrimStart leaves the suffix of `s` that starts at its first
      non-whitespace character. */
  lemma {:induction false} TrimStartSpec(s: string)
    ensures |TrimStart(s)| <= |s| && TrimStart(s) == s[|s| - |TrimStart(s)|..]
    ensures AllWhitespace(s[..|s| - |TrimStart(s)|])
    ensures TrimStart(s) == [] || TrimStart(s)[0] !in Whitespace
  {
    if s != [] && s[0] in Whitespace {
      TrimStartSpec(s[1..]);
      var n := |s| - |TrimStart(s)|;
      assert s[..n] == [s[0]] + s[1..][..n - 1];
    }
  }

  /** TrimEnd leaves the prefix of `s` that ends at its last non-whitespace
      character. */
  lemma {:induction false} TrimEndSpec(s: string)
    ensures |TrimEnd(s)| <= |s| && TrimEnd(s) == s[..|TrimEnd(s)|]
    ensures AllWhitespace(s[|TrimEnd(s)|..])
    ensures TrimEnd(s) == [] || TrimEnd(s)[|TrimEnd(s)| - 1] !in Whitespace
  {
    if s != [] && s[|s| - 1] in Whitespace {
      var t := s[..|s| - 1];
      TrimEndSpec(t);
      var n := |TrimEnd(s)|;
      assert s[n..] == t[n..] + [s[|s| - 1]];
    }
  }

  /** `s.trim()`. */
  function Trim(s: string): (r: string)
    ensures IsTrimmed(r)
    ensures IsTrimmed(s) ==> r == s
  {
    TrimStartSpec(s);
    TrimEndSpec(TrimStart(s));
    TrimEnd(TrimStart(s))
  }

  /** Trimming only removes characters. */
  lemma TrimKeepsOut(s: string, c: char)
    requires c !in s
    ensures c !in Trim(s)
  {
    var t := TrimStart(s);
    TrimStartSpec(s);
    assert t == s[|s| - |t|..];
    var r := TrimEnd(t);
    TrimEndSpec(t);
    assert r == t[..|r|];
  }

  /** `s.split(sep)`: the maximal separator-free pieces of `s`, always at
      least one (see SplitThenJoin for the pieces' content). */
  function Split(s: string, sep: char): (r: seq<string>)
    ensures |r| >= 1
    ensures forall k :: 0 <= k < |r| ==> sep !in r[k]
  {
    if s == [] then [""]
    else
      var rest := Split(s[1..], sep);
      if s[0] == sep then [""] + rest else [[s[0]] + rest[0]] + rest[1..]
  }

  /** Joining the pieces of a split with the separator gives the text back. */
  lemma {:induction false} SplitThenJoin(s: string, sep: char)
    ensures Join(Split(s, sep), [sep]) == s
  {
    if s != [] {
      var rest := Split(s[1..], sep);
      SplitThenJoin(s[1..], sep);
      if s[0] == sep {
        assert ([""] + rest)[1..] == rest;
        assert [sep] + Join(rest, [sep]) == s;
      } else {
        JoinPrepend(s[0], rest, [sep]);
        assert [s[0]] + Join(rest, [sep]) == s;
      }
    }
  }

  /** The total length of the strings in `xs`. */
  function TotalLength(xs: seq<string>): nat
  {
    if xs == [] then 0 else |xs[0]| + TotalLength(xs[1..])
  }

  /** `xs.join(glue)`: the pieces in order with one glue between each two,
      so the text starts with the first piece. */
  function Join(xs: seq<string>, glue: string): (r: string)
    ensures |r| == TotalLength(xs) + (if xs == [] then 0 else (|xs| - 1) * |glue|)
    ensures xs != [] ==> r[..|xs[0]|] == xs[0]
  {
    if xs == [] then ""
    else if |xs| == 1 then xs[0]
    else xs[0] + glue + Join(xs[1..], glue)
  }

  lemma JoinPrepend(c: char, xs: seq<string>, glue: string)
    requires xs != []
    ensures Join([[c] + xs[0]] + xs[1..], glue) == [c] + Join(xs, glue)
  {
    var ys := [[c] + xs[0]] + xs[1..];
    assert ys[1..] == xs[1..];
  }

  /** The amenities list typed into the form (handleSubmit): the non-empty
      ones among the trimmed comma-separated pieces, in order. */
  function Parse(text: string): (r: seq<string>)
    ensures Seqs.SelectsInOrder(r, Seqs.MapAll(Split(text, ','), Trim), NonEmpty())
  {
    Seqs.FilterSelectsInOrder(Seqs.MapAll(Split(text, ','), Trim), NonEmpty());
    Seqs.Filter(Seqs.MapAll(Split(text, ','), Trim), NonEmpty())
  }

  /** The `filter((item) => item)` test: an empty string is falsy. */
  function NonEmpty(): string -> bool
  {
    a => a != ""
  }

  /** The form text for a room's amenities list (handleEdit): the names
      separated by `", "`, so two characters per gap. */
  function Render(xs: seq<string>): (r: string)
    ensures |r| == TotalLength(xs) + (if xs == [] then 0 else 2 * (|xs| - 1))
    ensures xs != [] ==> r[..|xs[0]|] == xs[0]
  {
    Join(xs, ", ")
  }

  /** Every parsed amenity is non-empty, trimmed and free of commas. */
  lemma {:induction false} ParsedAreWellFormed(text: string)
    ensures forall a :: a in Parse(text) ==> WellFormed(a)
  {
    var pieces := Seqs.MapAll(Split(text, ','), Trim);
    forall a | a in Parse(text) ensures WellFormed(a) {
      Seqs.FilterSelectsInOrder(pieces, NonEmpty());
      Seqs.SelectionMembers(Parse(text), pieces, NonEmpty(), a);
      var i :| 0 <= i < |pieces| && pieces[i] == a;
      var piece := Split(text, ',')[i];
      assert ',' !in piece;
      TrimKeepsOut(piece, ',');
    }
  }

  lemma {:induction false} TrimStartSkips(p: string, a: string)
    requires AllWhitespace(p)
    ensures TrimStart(p + a) == TrimStart(a)
  {
    if p != [] {
      var q := p + a;
      assert q[0] in Whitespace;
      assert q[1..] == p[1..] + a;
      TrimStartSkips(p[1..], a);
    } else {
      assert p + a == a;
    }
  }

  /** Trimming a well-formed name padded on the left with whitespace gives
      the name back. */
  lemma TrimPadded(p: string, a: string)
    requires AllWhitespace(p) && WellFormed(a)
    ensures Trim(p + a) == a
  {
    TrimStartSkips(p, a);
  }

  lemma {:induction false} SplitAtSeparator(a: string, sep: char, b: string)
    requires sep !in a
    ensures Split(a + [sep] + b, sep) == [a] + Split(b, sep)
  {
    if a == [] {
      assert (a + [sep] + b)[1..] == b;
    } else {
      assert (a + [sep] + b)[1..] == a[1..] + [sep] + b;
      SplitAtSeparator(a[1..], sep, b);
      assert [a[0]] + a[1..] == a;
    }
  }

  lemma {:induction false} SplitWithoutSeparator(a: string, sep: char)
    requires sep !in a
    ensures Split(a, sep) == [a]
  {
    if a != [] {
      SplitWithoutSeparator(a[1..], sep);
      assert [a[0]] + a[1..] == a;
    }
  }

  /** Splitting a rendered list at its commas and trimming every piece gives
      the list back, whatever whitespace precedes it. */
  lemma {:induction false} TrimmedPiecesOfRender(p: string, xs: seq<string>)
    requires AllWhitespace(p)
    requires xs != [] && forall k :: 0 <= k < |xs| ==> WellFormed(xs[k])
    ensures Seqs.MapAll(Split(p + Render(xs), ','), Trim) == xs
    decreases |xs|
  {
    if |xs| == 1 {
      assert ',' !in p + xs[0] by {
        assert ',' !in Whitespace;
      }
      SplitWithoutSeparator(p + xs[0], ',');
      TrimPadded(p, xs[0]);
    } else {
      assert AllWhitespace(" ");
      TrimmedPiecesOfRender(" ", xs[1..]);
      TrimmedPiecesStep(p, xs);
    }
  }

  /** The inductive step of TrimmedPiecesOfRender: the first piece trims to
      the first name, and the rest is the rendering of the tail, padded. */
  lemma TrimmedPiecesStep(p: string, xs: seq<string>)
    requires AllWhitespace(p)
    requires |xs| >= 2 && WellFormed(xs[0])
    requires Seqs.MapAll(Split(" " + Render(xs[1..]), ','), Trim) == xs[1..]
    ensures Seqs.MapAll(Split(p + Render(xs), ','), Trim) == xs
  {
    var head := p + xs[0];
    var tail := " " + Render(xs[1..]);
    assert ',' !in head by {
      assert ',' !in Whitespace;
    }
    RenderSplitsAtFirstComma(p, xs);
    SplitAtSeparator(head, ',', tail);
    Seqs.MapAllCons(head, Split(tail, ','), Trim);
    TrimPadded(p, xs[0]);
    assert xs == [xs[0]] + xs[1..];
  }

  lemma RenderSplitsAtFirstComma(p: string, xs: seq<string>)
    requires |xs| >= 2
    ensures p + Render(xs) == (p + xs[0]) + [','] + (" " + Render(xs[1..]))
  {
    assert Render(xs) == xs[0] + ", " + Render(xs[1..]);
  }

  /** Round trip: the form text of a list of well-formed amenities parses
      back to that list; in particular the empty list, rendered as "",
      parses to the empty list. */
  lemma {:induction false} RenderThenParse(xs: seq<string>)
    requires forall k :: 0 <= k < |xs| ==> WellFormed(xs[k])
    ensures Parse(Render(xs)) == xs
  {
    if xs == [] {
      assert Split("", ',') == [""];
      assert Seqs.MapAll([""], Trim) == [""];
      assert Seqs.Filter([""], NonEmpty()) == Seqs.Filter([], NonEmpty()) + [];
    } else {
      TrimmedPiecesOfRender("", xs);
      assert "" + Render(xs) == Render(xs);
      Seqs.FilterAll(xs, NonEmpty());
    }
  }

  /** Parsing is stable: rendering a parsed list and parsing it again gives
      the same list, so re-saving an unchanged form keeps the amenities. */
  lemma {:induction false} ParseRenderParse(text: string)
    ensures Parse(Render(Parse(text))) == Parse(text)
  {
    ParsedAreWellFormed(text);
    RenderThenParse(Parse(text));
  }
}

/** The tokenizer: the instruction is trimmed, split on the space character,
    and the empty pieces are dropped. Only the space separates tokens; any
    other white space inside the text stays part of a token. */
module Tokenizer {
  import opened JsText

  /** Pieces joined back with one space between each two. */
  function Join(parts: seq<string>): string
  {
    if |parts| == 0 then ""
    else if |parts| == 1 then parts[0]
    else parts[0] + " " + Join(parts[1..])
  }

  /** `s.split(' ')`: the pieces between spaces, empty ones included, so that
      joining them back with single spaces gives `s` again. */
  function Split(s: string): (parts: seq<string>)
    ensures |parts| >= 1
    ensures forall i | 0 <= i < |parts| :: ' ' !in parts[i]
    ensures Join(parts) == s
    decreases |s|
  {
    if |s| == 0 then [""]
    else
      var rest := Split(s[1..]);
      if s[0] == ' ' then
        var parts := [""] + rest;
        assert parts[1..] == rest;
        assert s == " " + s[1..];
        parts
      else
        var parts := [[s[0]] + rest[0]] + rest[1..];
        assert s == [s[0]] + s[1..];
        if |rest| == 1 then parts
        else
          assert parts[1..] == rest[1..];
          assert Join(rest) == rest[0] + " " + Join(rest[1..]);
          assert Join(parts) == ([s[0]] + rest[0]) + " " + Join(rest[1..]);
          parts
  }

  /** The non-empty pieces, in order. */
  function DropEmpty(parts: seq<string>): (kept: seq<string>)
    ensures forall i | 0 <= i < |kept| :: kept[i] != ""
    ensures forall t | t in kept :: t in parts
  {
    if |parts| == 0 then []
    else if parts[0] == "" then DropEmpty(parts[1..])
    else [parts[0]] + DropEmpty(parts[1..])
  }

  /** Dropping works piece by piece: a single piece is kept exactly when it
      is non-empty, and the pieces of a concatenation are dropped from each
      part in turn, so every non-empty piece survives, in order, repeats
      included. */
  lemma {:induction false} DropEmptyAppend(a: seq<string>, b: seq<string>)
    ensures |a| == 1 ==> DropEmpty(a) == if a[0] == "" then [] else a
    ensures DropEmpty(a + b) == DropEmpty(a) + DropEmpty(b)
  {
    if |a| == 0 {
      assert a + b == b;
    } else {
      assert (a + b)[0] == a[0];
      assert (a + b)[1..] == a[1..] + b;
      DropEmptyAppend(a[1..], b);
      if |a| == 1 {
        assert a[1..] == [];
      }
    }
  }

  /** The token sequence of an instruction. */
  function Tokenize(instruction: string): seq<string>
  {
    DropEmpty(Split(Trim(instruction)))
  }

  /** Tokens are never empty and never contain a space. */
  lemma TokensAreWords(instruction: string)
    ensures forall i | 0 <= i < |Tokenize(instruction)| ::
      Tokenize(instruction)[i] != "" && ' ' !in Tokenize(instruction)[i]
  {
    var parts := Split(Trim(instruction));
    var tokens := DropEmpty(parts);
    forall i | 0 <= i < |tokens|
      ensures ' ' !in tokens[i]
    {
      assert tokens[i] in parts;
    }
  }

  /** A token sequence that could have come from the tokenizer. */
  predicate IsWordList(tokens: seq<string>)
  {
    && (forall i | 0 <= i < |tokens| :: tokens[i] != "" && ' ' !in tokens[i])
    && (|tokens| > 0 ==> !IsWhiteSpace(tokens[0][0]))
    && (|tokens| > 0 ==> !IsWhiteSpace(tokens[|tokens| - 1][|tokens[|tokens| - 1]| - 1]))
  }

  /** Splitting text made by joining space-free pieces gives the pieces back. */
  lemma {:induction false} SplitJoin(parts: seq<string>)
    requires |parts| >= 1
    requires forall i | 0 <= i < |parts| :: ' ' !in parts[i]
    ensures Split(Join(parts)) == parts
    decreases |parts|, |parts[0]|
  {
    var p := parts[0];
    if |p| == 0 {
      if |parts| > 1 {
        var rest := parts[1..];
        SplitJoin(rest);
        JoinEmptyHead(rest);
        SplitSpace(Join(rest));
        assert parts == [""] + rest;
      }
    } else {
      var tail := [p[1..]] + parts[1..];
      assert tail[1..] == parts[1..];
      assert ' ' !in p[1..] by {
        assert forall c | c in p[1..] :: c in p;
      }
      SplitJoin(tail);
      assert p[0] != ' ' by { assert p[0] in p; }
      JoinCons(p[0], tail);
      SplitCons(p[0], Join(tail));
      assert p == [p[0]] + p[1..];
      assert parts == [[p[0]] + tail[0]] + tail[1..];
    }
  }

  /** An empty first piece puts the separator first. */
  lemma JoinEmptyHead(rest: seq<string>)
    requires |rest| >= 1
    ensures Join([""] + rest) == " " + Join(rest)
  {
    assert ([""] + rest)[1..] == rest;
  }

  /** A leading space ends an empty first piece. */
  lemma SplitSpace(u: string)
    ensures Split(" " + u) == [""] + Split(u)
  {
    assert (" " + u)[1..] == u;
  }

  /** Prefixing the first piece with a character prefixes the joined text. */
  lemma JoinCons(c: char, tail: seq<string>)
    requires |tail| >= 1
    ensures Join([[c] + tail[0]] + tail[1..]) == [c] + Join(tail)
  {
    var parts := [[c] + tail[0]] + tail[1..];
    if |tail| > 1 {
      var a, b := tail[0], Join(tail[1..]);
      assert parts[1..] == tail[1..];
      assert ([c] + a) + " " + b == [c] + (a + " " + b);
    }
  }

  /** A leading character other than the space joins the first piece. */
  lemma SplitCons(c: char, u: string)
    requires c != ' '
    ensures Split([c] + u) == [[c] + Split(u)[0]] + Split(u)[1..]
  {
    assert ([c] + u)[1..] == u;
  }

  lemma {:induction false} DropEmptyOfWords(parts: seq<string>)
    requires forall i | 0 <= i < |parts| :: parts[i] != ""
    ensures DropEmpty(parts) == parts
  {
    if |parts| > 0 {
      DropEmptyOfWords(parts[1..]);
      assert parts == [parts[0]] + parts[1..];
    }
  }

  /** The tokenizer inverts joining with single spaces: words that are
      non-empty, space-free and not fringed with white space come back
      unchanged. */
  lemma TokenizeJoin(tokens: seq<string>)
    requires IsWordList(tokens)
    ensures Tokenize(Join(tokens)) == tokens
  {
    if |tokens| == 0 {
      assert Join(tokens) == "";
      assert Split("") == [""];
    } else {
      var s := Join(tokens);
      JoinFringe(tokens);
      TrimOfTrimmed(s);
      SplitJoin(tokens);
      DropEmptyOfWords(tokens);
    }
  }

  /** Joined text starts with the first word's first character and ends with
      the last word's last character. */
  lemma {:induction false} JoinFringe(tokens: seq<string>)
    requires |tokens| > 0
    requires forall i | 0 <= i < |tokens| :: tokens[i] != ""
    ensures var s := Join(tokens);
      && |s| > 0
      && s[0] == tokens[0][0]
      && s[|s| - 1] == tokens[|tokens| - 1][|tokens[|tokens| - 1]| - 1]
  {
    if |tokens| > 1 {
      var rest := tokens[1..];
      JoinFringe(rest);
      var head, tail := tokens[0] + " ", Join(rest);
      assert Join(tokens) == head + tail;
      assert (head + tail)[0] == tokens[0][0];
      assert (head + tail)[|head + tail| - 1] == tail[|tail| - 1];
      assert rest[|rest| - 1] == tokens[|tokens| - 1];
    }
  }
}

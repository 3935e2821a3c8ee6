/** Splitting a line into whitespace-separated words, and joining words with a separator. */
module Text {

  predicate IsSpace(c: char) {
    c == ' ' || c == '\t' || c == '\n' || c == '\r' || c == '\U{000C}'
  }

  predicate NoSpace(s: string) {
    forall i :: 0 <= i < |s| ==> !IsSpace(s[i])
  }

  /** A word is a non-empty run of non-whitespace characters. */
  predicate IsWord(w: string) {
    |w| > 0 && NoSpace(w)
  }

  predicate AllWords(ws: seq<string>) {
    forall i :: 0 <= i < |ws| ==> IsWord(ws[i])
  }

  /** Splits `s`, where `pending` is the part of a word already read. */
  function SplitFrom(s: string, pending: string): (ws: seq<string>)
    requires NoSpace(pending)
    ensures AllWords(ws)
    decreases |s|
  {
    if s == [] then
      (if pending == [] then [] else [pending])
    else if IsSpace(s[0]) then
      (if pending == [] then [] else [pending]) + SplitFrom(s[1..], [])
    else
      SplitFrom(s[1..], pending + [s[0]])
  }

  /** The words of `s`, in order: runs of whitespace separate them and are dropped. */
  function Split(s: string): (ws: seq<string>)
    ensures AllWords(ws)
  {
    SplitFrom(s, [])
  }

  /** The items of `ws` with `sep` between each two neighbours. */
  function Join(sep: string, ws: seq<string>): (s: string)
    ensures |ws| > 0 ==> |ws[0]| <= |s| && s[..|ws[0]|] == ws[0]
    decreases |ws|
  {
    if |ws| == 0 then ""
    else if |ws| == 1 then ws[0]
    else ws[0] + sep + Join(sep, ws[1..])
  }

  /** Reading a space-free prefix only extends the pending word. */
  lemma {:induction false} SplitFromWordPrefix(w: string, rest: string, pending: string)
    requires NoSpace(w) && NoSpace(pending)
    ensures NoSpace(pending + w)
    ensures SplitFrom(w + rest, pending) == SplitFrom(rest, pending + w)
    decreases |w|
  {
    if w == [] {
      assert w + rest == rest;
      assert pending + w == pending;
    } else {
      assert (w + rest)[0] == w[0];
      assert (w + rest)[1..] == w[1..] + rest;
      SplitFromWordPrefix(w[1..], rest, pending + [w[0]]);
      assert pending + [w[0]] + w[1..] == pending + w;
    }
  }

  /** A whitespace character ends the pending word. */
  lemma SplitFromSpace(s: string, pending: string)
    requires NoSpace(pending) && |s| > 0 && IsSpace(s[0])
    ensures SplitFrom(s, pending) == (if pending == [] then [] else [pending]) + SplitFrom(s[1..], [])
  {
  }

  /** One step of the round trip: the first word, then the words after it. */
  lemma SplitJoinCons(ws: seq<string>, tail: string)
    requires AllWords(ws) && |ws| > 1
    requires SplitFrom(Join(" ", ws[1..]) + tail, []) == ws[1..] + SplitFrom(tail, [])
    ensures SplitFrom(Join(" ", ws) + tail, []) == ws + SplitFrom(tail, [])
  {
    var rest := " " + (Join(" ", ws[1..]) + tail);
    assert Join(" ", ws) + tail == ws[0] + rest;
    SplitFromWordPrefix(ws[0], rest, []);
    assert [] + ws[0] == ws[0];
    SplitFromSpace(rest, ws[0]);
    assert rest[1..] == Join(" ", ws[1..]) + tail;
    assert ws == [ws[0]] + ws[1..];
  }

  /** Splitting words joined by a space, followed by a tail that starts with whitespace, gives the words back. */
  lemma {:induction false} SplitJoin(ws: seq<string>, tail: string)
    requires AllWords(ws)
    requires tail == [] || IsSpace(tail[0])
    ensures SplitFrom(Join(" ", ws) + tail, []) == ws + SplitFrom(tail, [])
    decreases |ws|
  {
    if |ws| == 0 {
      assert Join(" ", ws) + tail == tail;
    } else if |ws| == 1 {
      SplitFromWordPrefix(ws[0], tail, []);
      assert [] + ws[0] == ws[0];
      if tail != [] {
        SplitFromSpace(tail, ws[0]);
        SplitFromSpace(tail, []);
      }
    } else {
      SplitJoin(ws[1..], tail);
      SplitJoinCons(ws, tail);
    }
  }

  /** Round trip: splitting words joined by single spaces gives the same words. */
  lemma SplitJoinRoundTrip(ws: seq<string>)
    requires AllWords(ws)
    ensures Split(Join(" ", ws)) == ws
  {
    SplitJoin(ws, []);
    assert Join(" ", ws) + [] == Join(" ", ws);
  }

  /** Gluing text in front of joined words glues it to the first word only. */
  lemma {:induction false} SplitGluedJoin(glue: string, ws: seq<string>)
    requires NoSpace(glue) && AllWords(ws) && |ws| > 0
    ensures IsWord(glue + ws[0])
    ensures Split(glue + Join(" ", ws)) == [glue + ws[0]] + ws[1..]
  {
    var rest := if |ws| == 1 then "" else " " + Join(" ", ws[1..]);
    assert Join(" ", ws) == ws[0] + rest;
    assert glue + Join(" ", ws) == glue + ws[0] + rest;
    SplitFromWordPrefix(glue + ws[0], rest, []);
    assert [] + (glue + ws[0]) == glue + ws[0];
    if |ws| == 1 {
      assert glue + ws[0] + rest == glue + ws[0];
    } else {
      SplitFromSpace(rest, glue + ws[0]);
      assert rest[1..] == Join(" ", ws[1..]) + [];
      SplitJoin(ws[1..], []);
    }
  }

  /** A leading word, a space, joined words and a newline split into the tag followed by the words. */
  lemma SplitLabelledLine(tag: string, ws: seq<string>)
    requires IsWord(tag) && AllWords(ws)
    ensures Split(tag + " " + Join(" ", ws) + "\n") == [tag] + ws
  {
    var rest := " " + (Join(" ", ws) + "\n");
    assert tag + " " + Join(" ", ws) + "\n" == tag + rest;
    SplitFromWordPrefix(tag, rest, []);
    assert [] + tag == tag;
    SplitFromSpace(rest, tag);
    assert rest[1..] == Join(" ", ws) + "\n";
    SplitJoin(ws, "\n");
    SplitFromSpace("\n", []);
    assert "\n"[1..] == [];
  }
}

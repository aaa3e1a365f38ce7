/**
  Text written to standard output by `println!`, and the lines a reader
  recovers from it.

  `println!("{}", s)` writes `s` followed by a newline. `WriteLines` is the
  text a sequence of such calls produces; `SplitLines` cuts text back into
  lines at each newline. They are inverse on lines without a newline.
 */
module Lines {

  const Newline: char := '\n'

  /** No line of `lines` holds a newline character. */
  predicate NoNewlines(lines: seq<string>) {
    forall k :: 0 <= k < |lines| ==> Newline !in lines[k]
  }

  /** The text `println!` writes for one line. */
  function Println(line: string): string {
    line + [Newline]
  }

  /** The text written by printing each line of `lines`, in order. */
  function WriteLines(lines: seq<string>): (text: string)
    ensures lines == [] <==> text == []
    ensures lines != [] ==> text[|text| - 1] == Newline
  {
    if lines == [] then [] else Println(lines[0]) + WriteLines(lines[1..])
  }

  /** The index of the first newline in `s`, or `|s|` when there is none. */
  function IndexOfNewline(s: string): (i: nat)
    ensures i <= |s|
    ensures forall j :: 0 <= j < i ==> s[j] != Newline
    ensures i < |s| ==> s[i] == Newline
  {
    if s == [] then 0
    else if s[0] == Newline then 0
    else 1 + IndexOfNewline(s[1..])
  }

  /**
    The lines of `text`: each newline ends one line; text after the last
    newline, if any, is a last unterminated line.
   */
  function SplitLines(text: string): (lines: seq<string>)
    ensures NoNewlines(lines)
    ensures text == [] <==> lines == []
    decreases |text|
  {
    if text == [] then []
    else
      var i := IndexOfNewline(text);
      if i == |text| then [text]
      else [text[..i]] + SplitLines(text[i + 1..])
  }

  /** The first line of printed text ends at the newline `println!` wrote after it. */
  lemma FirstLineEnds(line: string, rest: string)
    requires Newline !in line
    ensures IndexOfNewline(Println(line) + rest) == |line|
  {
    var s := Println(line) + rest;
    assert s[|line|] == Newline;
  }

  /** Splitting printed text gives back exactly the lines printed, in order. */
  lemma {:induction false} SplitWrittenLines(lines: seq<string>)
    requires NoNewlines(lines)
    ensures SplitLines(WriteLines(lines)) == lines
  {
    if lines != [] {
      var head, rest := lines[0], WriteLines(lines[1..]);
      var text := Println(head) + rest;
      assert WriteLines(lines) == text;
      FirstLineEnds(head, rest);
      assert text[..|head|] == head;
      assert text[|head| + 1..] == rest;
      SplitWrittenLines(lines[1..]);
      assert lines == [head] + lines[1..];
    }
  }
}

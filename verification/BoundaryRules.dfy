/** The line kinds and path rules of the boundary audit (src/data_boundary.rs), said without its own predicates. */
module BoundaryRules {
  import opened Kernel
  import opened Text
  import opened TextFacts
  import opened DataBoundary

  /** What a line is depends on its text between white space: the attribute, the tests, blank or another attribute, or code. */
  lemma LineKinds(line: string, before: string, text: string, after: string)
    requires IsTrimmed(text) && Surrounds(before, after, line, text)
    ensures IsCfgTest(line) <==> text == "#[cfg(test)]"
    ensures IsModTests(line) <==> |text| >= 9 && text[..9] == "mod tests"
    ensures IsFiller(line) <==> text == "" || (|text| >= 2 && text[0] == '#' && text[1] == '[' && text != "#[cfg(test)]")
  {
    TrimOver(before, after, line, text);
    assert |text| >= 2 ==> ("#[" <= text <==> text[..2] == "#[");
    assert |text| >= 2 ==> (text[..2] == "#[" <==> text[0] == '#' && text[1] == '[');
  }

  function JoinSlashes(segments: seq<string>): string
    requires segments != []
  {
    if |segments| == 1 then segments[0] else segments[0] + ("/" + JoinSlashes(segments[1..]))
  }

  /** The segments of a path hold no slash and are the path when joined by slashes. */
  lemma {:induction false} SegmentsJoin(path: string)
    ensures JoinSlashes(Segments(path)) == path
    ensures forall i | 0 <= i < |Segments(path)| :: '/' !in Segments(path)[i]
  {
    if path != "" {
      var rest := Segments(path[1..]);
      SegmentsJoin(path[1..]);
      var all := Segments(path);
      if path[0] == '/' {
        assert all == [""] + rest && all[1..] == rest;
      } else {
        assert all == [[path[0]] + rest[0]] + rest[1..] && all[1..] == rest[1..];
        assert forall i | 1 <= i < |all| :: all[i] == rest[i];
        Associative([path[0]], rest[0], "/" + if |rest| == 1 then "" else JoinSlashes(rest[1..]));
      }
      assert path == [path[0]] + path[1..];
    }
  }

  predicate IsPathLetter(c: char) {
    c in UPPER_LETTERS || c in LOWER_LETTERS || c in "0123456789" || c in "._-/"
  }

  /** An input is a non-empty file with a relative path of at most 256 plain characters that ends in .rs and never climbs. */
  lemma InputIff(input: AuditInput)
    ensures IsValidInput(input) <==>
      && |input.contents| >= 1
      && 3 <= |input.path| <= 256 && input.path[|input.path| - 3..] == ".rs"
      && (forall i | 0 <= i < |input.path| :: IsPathLetter(input.path[i]))
      && (forall i | 0 <= i < |Segments(input.path)| ::
            var s := Segments(input.path)[i]; |s| >= 1 && s != "." && s != "..")
  {
    hide IsPathChar, IsPathLetter;
    forall i | 0 <= i < |input.path|
      ensures IsPathChar(input.path[i]) <==> IsPathLetter(input.path[i])
    {
      PathLetters(input.path[i]);
    }
    if input.path != "" && input.path[0] == '/' {
      assert Segments(input.path)[0] == "";
    }
  }

  lemma PathLetters(c: char)
    ensures IsPathChar(c) <==> IsPathLetter(c)
  {
    Alphabets(c);
  }
}

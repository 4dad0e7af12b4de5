/** The static audit of production sources for scheme data (src/data_boundary.rs). Text is counted in characters. */
module DataBoundary {
  import opened Kernel
  import opened Text

  const MAX_BOUNDARY_AUDIT_FILES: nat := 128
  const MAX_BOUNDARY_AUDIT_BYTES: nat := 8 * 1024 * 1024
  const MAX_BOUNDARY_FINDINGS: nat := 64

  // ---------------------------------------------------------------- lines

  /** `split_inclusive('\n')`: pieces that end with a line feed, and a last one that need not. */
  function Lines(s: string): (lines: seq<string>)
    ensures forall i | 0 <= i < |lines| :: lines[i] != ""
  {
    if s == "" then []
    else
      var rest := Lines(s[1..]);
      if s[0] == '\n' || rest == [] then [[s[0]]] + rest else [[s[0]] + rest[0]] + rest[1..]
  }

  function Joined(lines: seq<string>): string {
    if lines == [] then "" else Joined(lines[..|lines| - 1]) + lines[|lines| - 1]
  }

  lemma {:induction false} JoinedFront(line: string, lines: seq<string>)
    ensures Joined([line] + lines) == line + Joined(lines)
  {
    if lines == [] {
      assert Joined([line][..0]) == "";
      assert [line] + lines == [line];
    } else {
      var n := |lines| - 1;
      JoinedFront(line, lines[..n]);
      assert ([line] + lines)[..n + 1] == [line] + lines[..n];
      Associative(line, Joined(lines[..n]), lines[n]);
    }
  }

  /** The lines put together again are the text. */
  lemma {:induction false} JoinedLines(s: string)
    ensures Joined(Lines(s)) == s
  {
    if s != "" {
      var rest := Lines(s[1..]);
      JoinedLines(s[1..]);
      if s[0] == '\n' || rest == [] {
        JoinedFront([s[0]], rest);
      } else {
        JoinedFront(rest[0], rest[1..]);
        JoinedFront([s[0]] + rest[0], rest[1..]);
        assert rest == [rest[0]] + rest[1..];
        Associative([s[0]], rest[0], Joined(rest[1..]));
      }
      assert s == [s[0]] + s[1..];
    }
  }

  lemma {:induction false} JoinedPrefix(lines: seq<string>, i: nat)
    requires i <= |lines|
    ensures Joined(lines[..i]) <= Joined(lines)
    decreases |lines|
  {
    if i == |lines| {
      assert lines[..i] == lines;
    } else {
      var init := lines[..|lines| - 1];
      JoinedPrefix(init, i);
      assert init[..i] == lines[..i];
    }
  }

  // ---------------------------------------------------------------- where the tests begin

  predicate IsCfgTest(line: string) {
    Trim(line) == "#[cfg(test)]"
  }

  predicate IsModTests(line: string) {
    "mod tests" <= Trim(line)
  }

  /** A blank line or another attribute: it does not part `#[cfg(test)]` from what it applies to. */
  predicate IsFiller(line: string) {
    Trim(line) == "" || ("#[" <= Trim(line) && !IsCfgTest(line))
  }

  /** Line `g` is the last `#[cfg(test)]` before line `t`, with only fillers between. */
  predicate Governs(lines: seq<string>, g: nat, t: nat)
    requires t <= |lines|
  {
    g < t && IsCfgTest(lines[g]) && forall k | g < k < t :: IsFiller(lines[k])
  }

  /** Line `t` opens the tests, under the `#[cfg(test)]` of some earlier line. */
  predicate OpensTests(lines: seq<string>, t: nat)
    requires t < |lines|
  {
    IsModTests(lines[t]) && exists g | 0 <= g < t :: Governs(lines, g, t)
  }

  /** Everything before the `#[cfg(test)]` that governs the first tests, or everything. */
  predicate IsProduction(contents: string, production: string) {
    var lines := Lines(contents);
    || (production == contents && forall t | 0 <= t < |lines| :: !OpensTests(lines, t))
    || exists g, t | 0 <= g < t < |lines| ::
         && Governs(lines, g, t) && IsModTests(lines[t]) && production == Joined(lines[..g])
         && forall u | 0 <= u < t :: !OpensTests(lines, u)
  }

  /** The line the scan remembers before line `i`. */
  function Remembered(lines: seq<string>, i: nat): (g: Option<nat>)
    requires i <= |lines|
    ensures g.Some? ==> g.value < i
  {
    if i == 0 then None
    else if IsCfgTest(lines[i - 1]) then Some(i - 1)
    else if IsFiller(lines[i - 1]) then Remembered(lines, i - 1)
    else None
  }

  /** The remembered line is the governing one. */
  lemma {:induction false} RememberedGoverns(lines: seq<string>, i: nat, g: nat)
    requires i <= |lines|
    ensures Remembered(lines, i) == Some(g) <==> Governs(lines, g, i)
  {
    hide IsCfgTest, IsFiller;
    if i > 0 {
      RememberedGoverns(lines, i - 1, g);
      KindsOfLine(lines[i - 1]);
    }
  }

  lemma KindsOfLine(line: string)
    ensures IsCfgTest(line) ==> !IsModTests(line) && !IsFiller(line)
    ensures IsModTests(line) ==> !IsFiller(line)
  {
    var t := Trim(line);
    assert "#[cfg(test)]"[0] == '#' && "mod tests"[0] == 'm' && "#["[0] == '#';
    assert IsModTests(line) ==> t[0] == 'm';
    assert "#[" <= t ==> t[0] == '#';
  }

  /** Where a remembered line starts. */
  function StartOf(lines: seq<string>, g: Option<nat>): Option<nat>
    requires g.Some? ==> g.value <= |lines|
  {
    if g.None? then None else Some(|Joined(lines[..g.value])|)
  }

  function ProductionFrom(lines: seq<string>, i: nat): string
    requires i <= |lines|
    decreases |lines| - i
  {
    if i == |lines| then Joined(lines)
    else if IsModTests(lines[i]) && Remembered(lines, i).Some? then Joined(lines[..Remembered(lines, i).value])
    else ProductionFrom(lines, i + 1)
  }

  /** What `production_source` returns. */
  function Production(contents: string): string {
    ProductionFrom(Lines(contents), 0)
  }

  lemma {:induction false} FirstTests(contents: string, i: nat)
    requires i <= |Lines(contents)| && forall t | 0 <= t < i :: !OpensTests(Lines(contents), t)
    ensures IsProduction(contents, ProductionFrom(Lines(contents), i))
    ensures ProductionFrom(Lines(contents), i) <= contents
    decreases |Lines(contents)| - i
  {
    hide IsCfgTest, IsModTests, IsFiller, Governs, Lines, Joined;
    var lines := Lines(contents);
    JoinedLines(contents);
    if i < |lines| {
      forall g | 0 <= g < i
        ensures Governs(lines, g, i) <==> Remembered(lines, i) == Some(g)
      {
        RememberedGoverns(lines, i, g);
      }
      if IsModTests(lines[i]) && Remembered(lines, i).Some? {
        JoinedPrefix(lines, Remembered(lines, i).value);
      } else {
        FirstTests(contents, i + 1);
      }
    }
  }

  /**
   The production text is a prefix: it ends where the `#[cfg(test)]` governing the first tests begins, or nowhere; and
   no other text meets that description.
   */
  lemma ProductionIsThePrefix(contents: string, p: string)
    ensures Production(contents) <= contents
    ensures p == Production(contents) <==> IsProduction(contents, p)
  {
    hide Lines, ProductionFrom, Governs, IsModTests;
    FirstTests(contents, 0);
    if IsProduction(contents, p) {
      SameProduction(contents, p, Production(contents));
    }
  }

  lemma SameProduction(contents: string, p: string, q: string)
    requires IsProduction(contents, p) && IsProduction(contents, q)
    ensures p == q
  {
    hide Lines, Joined, Governs, IsModTests, IsFiller, IsCfgTest;
    var lines := Lines(contents);
    forall g, t | 0 <= g < t < |lines| && Governs(lines, g, t)
      ensures Remembered(lines, t) == Some(g)
    {
      RememberedGoverns(lines, t, g);
    }
    assert forall g, t | 0 <= g < t < |lines| && Governs(lines, g, t) && IsModTests(lines[t]) :: OpensTests(lines, t);
  }

  /** `production_source`. */
  method ProductionSource(contents: string) returns (production: string)
    ensures production == Production(contents)
  {
    hide Trim, Lines, Joined, IsCfgTest, IsModTests, IsFiller, Governs;
    var lines := Lines(contents);
    var offset := 0;
    var previous: Option<nat> := None;
    JoinedLines(contents);
    NothingJoined(lines);
    for i := 0 to |lines|
      invariant offset == |Joined(lines[..i])|
      invariant previous == StartOf(lines, Remembered(lines, i))
      invariant ProductionFrom(lines, 0) == ProductionFrom(lines, i)
    {
      KindsOfLine(lines[i]);
      NextLine(lines, i);
      if IsCfgTest(lines[i]) {
        previous := Some(offset);
      } else if IsModTests(lines[i]) && previous.Some? {
        JoinedPrefix(lines, Remembered(lines, i).value);
        production := contents[..previous.value];
        return;
      } else if !IsFiller(lines[i]) {
        previous := None;
      }
      offset := offset + |lines[i]|;
    }
    production := contents;
  }

  lemma NothingJoined(lines: seq<string>)
    ensures Joined(lines[..0]) == ""
  {
  }

  lemma NextLine(lines: seq<string>, i: nat)
    requires i < |lines|
    ensures Joined(lines[..i + 1]) == Joined(lines[..i]) + lines[i]
  {
    assert lines[..i + 1][..i] == lines[..i];
  }

  // ---------------------------------------------------------------- the audit

  datatype AuditInput = AuditInput(path: string, contents: string)

  datatype Forbidden = Forbidden(literal: string, classification: string)

  datatype Finding = Finding(path: string, line: nat, forbidden: Forbidden)

  datatype Audit = Audit(checkedFiles: nat, checkedBytes: nat, findings: seq<Finding>)

  predicate IsPathChar(c: char) {
    'a' <= c <= 'z' || 'A' <= c <= 'Z' || '0' <= c <= '9' || c == '.' || c == '_' || c == '-' || c == '/'
  }

  /** `split('/')`. */
  function Segments(path: string): (segments: seq<string>)
    ensures segments != []
  {
    if path == "" then [""]
    else
      var rest := Segments(path[1..]);
      if path[0] == '/' then [""] + rest else [[path[0]] + rest[0]] + rest[1..]
  }

  /** `validate_input`. */
  predicate IsValidInput(input: AuditInput) {
    && 0 < |input.path| <= 256 && input.contents != ""
    && 3 <= |input.path| && input.path[|input.path| - 3..] == ".rs"
    && (forall i | 0 <= i < |input.path| :: IsPathChar(input.path[i]))
    && input.path[0] != '/'
    && forall i | 0 <= i < |Segments(input.path)| :: Segments(input.path)[i] !in ["", ".", ".."]
  }

  /** `str::lines`: a line without its terminator. */
  function LineText(line: string): string {
    var text := if line != "" && line[|line| - 1] == '\n' then line[..|line| - 1] else line;
    if |text| < |line| && text != "" && text[|text| - 1] == '\r' then text[..|text| - 1] else text
  }

  /** The hits in one line among the first `k` forbidden literals, in the table's order. */
  function LineHits(path: string, n: nat, line: string, table: seq<Forbidden>, k: nat): seq<Finding>
    requires k <= |table|
  {
    if k == 0 then []
    else if Contains(line, table[k - 1].literal)
    then LineHits(path, n, line, table, k - 1) + [Finding(path, n, table[k - 1])]
    else LineHits(path, n, line, table, k - 1)
  }

  /** The hits in the first `n` lines. */
  function FileHits(path: string, lines: seq<string>, table: seq<Forbidden>, n: nat): seq<Finding>
    requires n <= |lines|
  {
    if n == 0 then []
    else FileHits(path, lines, table, n - 1) + LineHits(path, n, LineText(lines[n - 1]), table, |table|)
  }

  function InputHits(input: AuditInput, table: seq<Forbidden>): seq<Finding> {
    var lines := Lines(Production(input.contents));
    FileHits(input.path, lines, table, |lines|)
  }

  function AllHits(inputs: seq<AuditInput>, table: seq<Forbidden>): seq<Finding> {
    if inputs == [] then [] else AllHits(inputs[..|inputs| - 1], table) + InputHits(inputs[|inputs| - 1], table)
  }

  function TotalBytes(inputs: seq<AuditInput>): nat {
    if inputs == [] then 0 else TotalBytes(inputs[..|inputs| - 1]) + |Utf8(inputs[|inputs| - 1].contents)|
  }

  /** The checks `audit_variable_data_boundary` makes on the first `n` inputs all pass. */
  predicate Audits(inputs: seq<AuditInput>, table: seq<Forbidden>, n: nat)
    requires n <= |inputs|
  {
    && (forall i | 0 <= i < n :: IsValidInput(inputs[i]))
    && TotalBytes(inputs[..n]) <= 8_388_608
    && |AllHits(inputs[..n], table)| <= 64
  }

  /** Input `n` is the first that fails a check, and the check is validity. */
  predicate InvalidFirst(inputs: seq<AuditInput>, table: seq<Forbidden>, n: nat) {
    n < |inputs| && Audits(inputs, table, n) && !IsValidInput(inputs[n])
  }

  lemma {:induction false} LineHitMeaning(path: string, n: nat, line: string, table: seq<Forbidden>, k: nat, f: Finding)
    requires k <= |table|
    ensures f in LineHits(path, n, line, table, k) <==>
      f.path == path && f.line == n && f.forbidden in table[..k] && Contains(line, f.forbidden.literal)
  {
    hide Contains;
    if k > 0 {
      LineHitMeaning(path, n, line, table, k - 1, f);
      assert table[..k] == table[..k - 1] + [table[k - 1]];
    }
  }

  /** A finding is reported in a text exactly when its line of the text contains its literal from the table. */
  lemma {:induction false} FileHitMeaning(path: string, lines: seq<string>, table: seq<Forbidden>, n: nat, f: Finding)
    requires n <= |lines|
    ensures f in FileHits(path, lines, table, n) <==>
      && f.path == path && 1 <= f.line <= n && f.forbidden in table
      && Contains(LineText(lines[f.line - 1]), f.forbidden.literal)
  {
    hide Contains, LineText, LineHits;
    if n > 0 {
      FileHitMeaning(path, lines, table, n - 1, f);
      LineHitMeaning(path, n, LineText(lines[n - 1]), table, |table|, f);
      assert table[..|table|] == table;
    }
  }

  /** The audit's findings are exactly the (line, literal) hits in the production texts. */
  lemma {:induction false} HitMeaning(inputs: seq<AuditInput>, table: seq<Forbidden>, f: Finding)
    ensures f in AllHits(inputs, table) <==> exists i | 0 <= i < |inputs| :: IsHit(inputs[i], table, f)
  {
    hide IsHit, InputHits;
    if inputs != [] {
      var n := |inputs| - 1;
      HitMeaning(inputs[..n], table, f);
      InputHitMeaning(inputs[n], table, f);
      assert forall i | 0 <= i < n :: inputs[..n][i] == inputs[i];
    }
  }

  predicate IsHit(input: AuditInput, table: seq<Forbidden>, f: Finding) {
    var lines := Lines(Production(input.contents));
    && f.path == input.path && 1 <= f.line <= |lines| && f.forbidden in table
    && Contains(LineText(lines[f.line - 1]), f.forbidden.literal)
  }

  lemma InputHitMeaning(input: AuditInput, table: seq<Forbidden>, f: Finding)
    ensures f in InputHits(input, table) <==> IsHit(input, table, f)
  {
    hide Contains, LineText, Lines, Production;
    var lines := Lines(Production(input.contents));
    FileHitMeaning(input.path, lines, table, |lines|, f);
  }

  lemma {:induction false} HitsOnlyGrow(path: string, n: nat, line: string, table: seq<Forbidden>, j: nat, k: nat)
    requires j <= k <= |table|
    ensures |LineHits(path, n, line, table, j)| <= |LineHits(path, n, line, table, k)|
  {
    if j < k {
      HitsOnlyGrow(path, n, line, table, j, k - 1);
    }
  }

  lemma {:induction false} FileHitsOnlyGrow(path: string, lines: seq<string>, table: seq<Forbidden>, m: nat, n: nat)
    requires m <= n <= |lines|
    ensures |FileHits(path, lines, table, m)| <= |FileHits(path, lines, table, n)|
  {
    hide LineHits, LineText;
    if m < n {
      FileHitsOnlyGrow(path, lines, table, m, n - 1);
    }
  }

  /** The inner loop over the table: adds the line's hits, or overflows when they do not fit. */
  method ScanLine(findings: seq<Finding>, path: string, n: nat, line: string, table: seq<Forbidden>)
    returns (r: Result<seq<Finding>>)
    requires |findings| <= MAX_BOUNDARY_FINDINGS
    ensures r == if |findings| + |LineHits(path, n, line, table, |table|)| <= MAX_BOUNDARY_FINDINGS
                 then Ok(findings + LineHits(path, n, line, table, |table|)) else Err(LengthOverflow)
  {
    hide Contains;
    var found := findings;
    for k := 0 to |table|
      invariant found == findings + LineHits(path, n, line, table, k) && |found| <= MAX_BOUNDARY_FINDINGS
    {
      if Contains(line, table[k].literal) {
        if |found| == MAX_BOUNDARY_FINDINGS {
          HitsOnlyGrow(path, n, line, table, k + 1, |table|);
          return Err(LengthOverflow);
        }
        Associative(findings, LineHits(path, n, line, table, k), [Finding(path, n, table[k])]);
        found := found + [Finding(path, n, table[k])];
      }
    }
    r := Ok(found);
  }

  /** The loop over the lines of one production text. */
  method ScanLines(findings: seq<Finding>, path: string, lines: seq<string>, table: seq<Forbidden>)
    returns (r: Result<seq<Finding>>)
    requires |findings| <= MAX_BOUNDARY_FINDINGS
    ensures r == if |findings| + |FileHits(path, lines, table, |lines|)| <= MAX_BOUNDARY_FINDINGS
                 then Ok(findings + FileHits(path, lines, table, |lines|)) else Err(LengthOverflow)
  {
    hide LineHits, LineText;
    var found := findings;
    for i := 0 to |lines|
      invariant found == findings + FileHits(path, lines, table, i) && |found| <= MAX_BOUNDARY_FINDINGS
    {
      var scanned := ScanLine(found, path, i + 1, LineText(lines[i]), table);
      Associative(findings, FileHits(path, lines, table, i), LineHits(path, i + 1, LineText(lines[i]), table, |table|));
      if scanned.Err? {
        FileHitsOnlyGrow(path, lines, table, i + 1, |lines|);
        return Err(LengthOverflow);
      }
      found := scanned.value;
    }
    r := Ok(found);
  }

  lemma NothingAudited(inputs: seq<AuditInput>, table: seq<Forbidden>)
    ensures TotalBytes(inputs[..0]) == 0 && AllHits(inputs[..0], table) == [] && Audits(inputs, table, 0)
  {
  }

  lemma AuditGrows(inputs: seq<AuditInput>, table: seq<Forbidden>, i: nat)
    requires i < |inputs|
    ensures TotalBytes(inputs[..i + 1]) == TotalBytes(inputs[..i]) + |Utf8(inputs[i].contents)|
    ensures AllHits(inputs[..i + 1], table) == AllHits(inputs[..i], table) + InputHits(inputs[i], table)
  {
    hide Utf8, InputHits;
    assert inputs[..i + 1][..i] == inputs[..i];
  }

  lemma {:induction false} AuditShrinks(inputs: seq<AuditInput>, table: seq<Forbidden>, m: nat, n: nat)
    requires m <= n <= |inputs| && Audits(inputs, table, n)
    ensures Audits(inputs, table, m)
    decreases n - m
  {
    hide IsValidInput, Utf8, InputHits, AllHits, TotalBytes;
    if m < n {
      AuditGrows(inputs, table, n - 1);
      AuditShrinks(inputs, table, m, n - 1);
    }
  }

  /** Once valid inputs go past a limit, the audit as a whole does, and no invalid input comes first. */
  lemma LimitReached(inputs: seq<AuditInput>, table: seq<Forbidden>, i: nat)
    requires i < |inputs| && Audits(inputs, table, i) && IsValidInput(inputs[i]) && !Audits(inputs, table, i + 1)
    ensures !Audits(inputs, table, |inputs|) && forall n :: !InvalidFirst(inputs, table, n)
  {
    hide IsValidInput, AllHits, TotalBytes;
    if Audits(inputs, table, |inputs|) {
      AuditShrinks(inputs, table, i + 1, |inputs|);
    }
    forall n: nat | i < n <= |inputs|
      ensures !Audits(inputs, table, n)
    {
      if Audits(inputs, table, n) {
        AuditShrinks(inputs, table, i + 1, n);
      }
    }
  }

  /** An invalid input stops the audit. */
  lemma InvalidStops(inputs: seq<AuditInput>, table: seq<Forbidden>, i: nat)
    requires InvalidFirst(inputs, table, i)
    ensures !Audits(inputs, table, |inputs|)
  {
    hide IsValidInput, AllHits, TotalBytes;
  }

  /**
   `audit_variable_data_boundary`: it succeeds exactly when every limit holds, with every (line, literal) hit of the
   production texts in order; it reports an invalid argument exactly when an invalid input comes before any limit.
   The table of forbidden literals is a parameter.
   */
  method AuditVariableDataBoundary(inputs: seq<AuditInput>, table: seq<Forbidden>) returns (r: Result<Audit>)
    ensures r.Ok? <==> 0 < |inputs| <= 128 && Audits(inputs, table, |inputs|)
    ensures r.Ok? ==> r.value == Audit(|inputs|, TotalBytes(inputs), AllHits(inputs, table))
    ensures r.Err? ==> r.error == LengthOverflow || r.error == InvalidArgument
    ensures r == Err(InvalidArgument) <==> 0 < |inputs| <= 128 && exists n :: InvalidFirst(inputs, table, n)
  {
    hide Production, Lines, IsValidInput, Utf8, AllHits, TotalBytes, FileHits;
    if inputs == [] || |inputs| > MAX_BOUNDARY_AUDIT_FILES {
      return Err(LengthOverflow);
    }
    var checkedBytes := 0;
    var findings: seq<Finding> := [];
    NothingAudited(inputs, table);
    for i := 0 to |inputs|
      invariant Audits(inputs, table, i)
      invariant checkedBytes == TotalBytes(inputs[..i]) && findings == AllHits(inputs[..i], table)
    {
      AuditGrows(inputs, table, i);
      if !IsValidInput(inputs[i]) {
        InvalidStops(inputs, table, i);
        return Err(InvalidArgument);
      }
      checkedBytes := checkedBytes + |Utf8(inputs[i].contents)|;
      if checkedBytes > MAX_BOUNDARY_AUDIT_BYTES {
        LimitReached(inputs, table, i);
        return Err(LengthOverflow);
      }
      var production := ProductionSource(inputs[i].contents);
      var scanned := ScanLines(findings, inputs[i].path, Lines(production), table);
      if scanned.Err? {
        LimitReached(inputs, table, i);
        return Err(LengthOverflow);
      }
      findings := scanned.value;
    }
    assert inputs[..|inputs|] == inputs;
    r := Ok(Audit(|inputs|, checkedBytes, findings));
  }
}

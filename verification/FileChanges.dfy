/** From the changed files to their diagnostics and classified signals (pkg/codesignal/file_change.go, file_signals.go,
    changed_ranges.go, lifecycle.go). */
module FileChanges {
  import opened FactOrder
  import FieldEncoding
  import opened Filtering
  import opened Options
  import opened Ordering
  import opened ReportDiagnostics
  import opened SignalIdentity
  import opened Signals

  datatype SyntaxIssue = SyntaxIssue(kind: string, location: Location)

  /** An analysis result; `signals` is what the rules make of its findings, whatever path they are told. */
  datatype Result = Result(path: string, parseStatus: string, signals: seq<Signal>, syntaxErrors: seq<SyntaxIssue>)

  datatype LineRange = LineRange(startRow: nat, endRow: nat)

  datatype FileChange = FileChange(path: string, status: string, sourceScope: string, base: Option<Result>,
                                   head: Option<Result>, changedRanges: seq<LineRange>)

  /** The end row and the source scope are among the fields of a signal that nothing else here reads. */
  datatype Fields = Fields(endRow: string -> nat, withScope: (string, string) -> string)

  // ----- one file -----

  function PathNote(fc: FileChange, side: string, result: Option<Result>): seq<Diagnostic> {
    if result.None? || result.value.path == "" || result.value.path == fc.path then []
    else [FileNote(fc.path, "invalid_file_change",
                   side + " result path \"" + result.value.path + "\" does not match file change path \"" + fc.path + "\"", None)]
  }

  function ValidateFileChange(fc: FileChange): seq<Diagnostic> {
    PathNote(fc, "base", fc.base) + PathNote(fc, "head", fc.head)
  }

  function SyntaxNote(path: string): SyntaxIssue -> Diagnostic {
    (issue: SyntaxIssue) =>
      FileNote(path, "syntax_errors", "head analysis found a syntax issue of kind \"" + issue.kind + "\"", Some(issue.location))
  }

  function HeadNotes(fc: FileChange): seq<Diagnostic> {
    match fc.head
    case None =>
      if fc.status == "modified" || fc.status == "added"
      then [FileNote(fc.path, "missing_head_result", "file change status \"" + fc.status + "\" has no head analysis result", None)]
      else []
    case Some(head) =>
      if head.parseStatus == "ok" then []
      else if head.parseStatus == "syntax_errors" then Map(SyntaxNote(fc.path), head.syntaxErrors)
      else [FileNote(fc.path, "unsupported_parse_status",
                     "head analysis result has unsupported parse status \"" + head.parseStatus + "\"", None)]
  }

  predicate Valid(range: LineRange) {
    range.startRow <= range.endRow
  }

  predicate Invalid(range: LineRange) {
    !Valid(range)
  }

  function RangeNote(path: string): LineRange -> Diagnostic {
    (range: LineRange) =>
      FileNote(path, "invalid_changed_range",
               "changed range start_row " + FieldEncoding.Itoa(range.startRow) + " is greater than end_row "
               + FieldEncoding.Itoa(range.endRow), None)
  }

  function RangeNotes(path: string, ranges: seq<LineRange>): seq<Diagnostic> {
    Map(RangeNote(path), Filter(Invalid, ranges))
  }

  function Notes(fc: FileChange): seq<Diagnostic> {
    ValidateFileChange(fc) + HeadNotes(fc) + RangeNotes(fc.path, fc.changedRanges)
  }

  /** Signals carry the path of the file change. */
  function On(path: string): Signal -> Signal {
    (s: Signal) => s.(path := path)
  }

  predicate Parsed(result: Option<Result>) {
    result.Some? && result.value.parseStatus == "ok"
  }

  predicate BaseUsable(fc: FileChange) {
    fc.base.Some? && (fc.base.value.path == "" || fc.base.value.path == fc.path)
  }

  predicate Eligible(fc: FileChange) {
    if fc.head.Some? then fc.head.value.parseStatus == "ok" else fc.status == "removed"
  }

  function NoBaseLifecycle(fc: FileChange, noBase: string): string {
    if fc.status == "added" && noBase != "baseline" then "introduced" else noBase
  }

  /** The two sides that are compared. */
  function Sides(fc: FileChange, noBase: string): Change {
    Change(BaseUsable(fc), if Parsed(fc.head) then Map(On(fc.path), fc.head.value.signals) else [],
           if BaseUsable(fc) && Parsed(fc.base) then Map(On(fc.path), fc.base.value.signals) else [], NoBaseLifecycle(fc, noBase))
  }

  predicate Overlaps(startRow: nat, endRow: nat, range: LineRange) {
    startRow <= range.endRow && range.startRow <= endRow
  }

  predicate OverlapsAny(startRow: nat, endRow: nat, ranges: seq<LineRange>) {
    exists range | range in ranges :: Overlaps(startRow, endRow, range)
  }

  /** A signal with its scope; a signal that is not resolved is changed if it overlaps a valid range. */
  function Marked(fields: Fields, fc: FileChange): Signal -> Signal {
    (s: Signal) =>
      s.(rest := fields.withScope(s.rest, fc.sourceScope),
         changed := s.lifecycle != "resolved" && OverlapsAny(s.startRow, fields.endRow(s.rest), Filter(Valid, fc.changedRanges)))
  }

  ghost function SignalsOf(r: Rules, fields: Fields, noBase: string): FileChange -> seq<Signal> {
    (fc: FileChange) => if Eligible(fc) then Map(Marked(fields, fc), Classified(r, Sides(fc, noBase))) else []
  }

  ghost function FileSignals(r: Rules, fields: Fields, noBase: string, files: seq<FileChange>): seq<Signal> {
    FlatMap(SignalsOf(r, fields, noBase), files)
  }

  function FileNotes(files: seq<FileChange>): seq<Diagnostic> {
    FlatMap(Notes, files)
  }

  // ----- the loops -----

  method ProcessHeadResult(fc: FileChange) returns (diagnostics: seq<Diagnostic>, signals: seq<Signal>)
    ensures diagnostics == HeadNotes(fc) && signals == Sides(fc, "").head
  {
    if fc.head.None? {
      if fc.status == "modified" || fc.status == "added" {
        return [FileNote(fc.path, "missing_head_result", "file change status \"" + fc.status + "\" has no head analysis result", None)], [];
      }
      return [], [];
    }
    var head := fc.head.value;
    if head.parseStatus == "ok" { return [], Map(On(fc.path), head.signals); }
    if head.parseStatus == "syntax_errors" {
      diagnostics, signals := [], [];
      for i := 0 to |head.syntaxErrors|
        invariant diagnostics == Map(SyntaxNote(fc.path), head.syntaxErrors)[..i]
      {
        diagnostics := diagnostics + [SyntaxNote(fc.path)(head.syntaxErrors[i])];
      }
      assert diagnostics == Map(SyntaxNote(fc.path), head.syntaxErrors);
      return;
    }
    return [FileNote(fc.path, "unsupported_parse_status",
                     "head analysis result has unsupported parse status \"" + head.parseStatus + "\"", None)], [];
  }

  lemma RangeStep(path: string, ranges: seq<LineRange>, i: nat)
    requires i < |ranges|
    ensures Filter(Valid, ranges[..i + 1]) == if Valid(ranges[i]) then Filter(Valid, ranges[..i]) + [ranges[i]] else Filter(Valid, ranges[..i])
    ensures RangeNotes(path, ranges[..i + 1])
            == if Valid(ranges[i]) then RangeNotes(path, ranges[..i]) else RangeNotes(path, ranges[..i]) + [RangeNote(path)(ranges[i])]
  {
    assert ranges[..i + 1] == ranges[..i] + [ranges[i]];
    FilterSnoc(Valid, ranges[..i], ranges[i]);
    FilterSnoc(Invalid, ranges[..i], ranges[i]);
    MapConcat(RangeNote(path), Filter(Invalid, ranges[..i]), if Valid(ranges[i]) then [] else [ranges[i]]);
  }

  method ValidateChangedRanges(fc: FileChange) returns (diagnostics: seq<Diagnostic>, valid: seq<LineRange>)
    ensures diagnostics == RangeNotes(fc.path, fc.changedRanges) && valid == Filter(Valid, fc.changedRanges)
  {
    var ranges := fc.changedRanges;
    diagnostics, valid := [], [];
    for i := 0 to |ranges|
      invariant Validated(fc.path, ranges[..i], diagnostics, valid)
    {
      RangeStep(fc.path, ranges, i);
      if ranges[i].startRow > ranges[i].endRow {
        diagnostics := diagnostics + [RangeNote(fc.path)(ranges[i])];
        continue;
      }
      valid := valid + [ranges[i]];
    }
    assert ranges[..|ranges|] == ranges;
  }

  ghost predicate Validated(path: string, ranges: seq<LineRange>, diagnostics: seq<Diagnostic>, valid: seq<LineRange>) {
    diagnostics == RangeNotes(path, ranges) && valid == Filter(Valid, ranges)
  }

  method AnyOverlap(startRow: nat, endRow: nat, ranges: seq<LineRange>) returns (any: bool)
    ensures any <==> OverlapsAny(startRow, endRow, ranges)
  {
    for i := 0 to |ranges|
      invariant !OverlapsAny(startRow, endRow, ranges[..i])
    {
      if Overlaps(startRow, endRow, ranges[i]) { return true; }
      assert ranges[..i + 1] == ranges[..i] + [ranges[i]];
    }
    assert ranges[..|ranges|] == ranges;
    return false;
  }

  method MarkChanged(fields: Fields, fc: FileChange, signals: seq<Signal>, validRanges: seq<LineRange>)
    returns (out: seq<Signal>)
    requires validRanges == Filter(Valid, fc.changedRanges)
    ensures out == Map(Marked(fields, fc), signals)
  {
    out := [];
    for i := 0 to |signals|
      invariant out == Map(Marked(fields, fc), signals)[..i]
    {
      var s := signals[i];
      var overlaps := AnyOverlap(s.startRow, fields.endRow(s.rest), validRanges);
      out := out + [s.(rest := fields.withScope(s.rest, fc.sourceScope), changed := s.lifecycle != "resolved" && overlaps)];
    }
    assert out == Map(Marked(fields, fc), signals);
  }

  method ProcessFileChanges(r: Rules, fields: Fields, files: seq<FileChange>, seed: seq<Diagnostic>, noBase: string)
    returns (diagnostics: seq<Diagnostic>, signals: seq<Signal>)
    ensures diagnostics == seed + FileNotes(files) && signals == FileSignals(r, fields, noBase, files)
  {
    diagnostics, signals := seed, [];
    for i := 0 to |files|
      invariant diagnostics == seed + FileNotes(files[..i]) && signals == FileSignals(r, fields, noBase, files[..i])
    {
      var notes, more := ProcessFileChange(r, fields, files[i], noBase);
      FileStep(r, fields, files, seed, noBase, i);
      diagnostics, signals := diagnostics + notes, signals + more;
    }
    assert files[..|files|] == files;
  }

  lemma FileStep(r: Rules, fields: Fields, files: seq<FileChange>, seed: seq<Diagnostic>, noBase: string, i: nat)
    requires i < |files|
    ensures seed + FileNotes(files[..i + 1]) == (seed + FileNotes(files[..i])) + Notes(files[i])
    ensures FileSignals(r, fields, noBase, files[..i + 1])
            == FileSignals(r, fields, noBase, files[..i]) + SignalsOf(r, fields, noBase)(files[i])
  {
    assert files[..i + 1] == files[..i] + [files[i]];
    FlatMapSnoc(Notes, files[..i], files[i]);
    FlatMapSnoc(SignalsOf(r, fields, noBase), files[..i], files[i]);
    Associate(seed, FileNotes(files[..i]), Notes(files[i]));
  }

  /** What one file adds. */
  method ProcessFileChange(r: Rules, fields: Fields, fc: FileChange, noBase: string)
    returns (notes: seq<Diagnostic>, signals: seq<Signal>)
    ensures notes == Notes(fc) && signals == SignalsOf(r, fields, noBase)(fc)
  {
    var headNotes, head := ProcessHeadResult(fc);
    var rangeNotes, validRanges := ValidateChangedRanges(fc);
    notes, signals := ValidateFileChange(fc) + headNotes + rangeNotes, [];
    if !Eligible(fc) { return; }
    assert Sides(fc, noBase).head == head;
    var classified := ClassifyFileSignals(r, Sides(fc, noBase));
    signals := MarkChanged(fields, fc, classified, validRanges);
  }

  // ----- what the order of the files does -----

  /** Permuted files have permuted signals and permuted diagnostics. */
  lemma FilesPermute(r: Rules, fields: Fields, noBase: string, files: seq<FileChange>, shuffled: seq<FileChange>)
    requires multiset(files) == multiset(shuffled)
    ensures multiset(FileSignals(r, fields, noBase, files)) == multiset(FileSignals(r, fields, noBase, shuffled))
    ensures multiset(FileNotes(files)) == multiset(FileNotes(shuffled))
  {
    FlatMapPermutes(SignalsOf(r, fields, noBase), files, shuffled);
    FlatMapPermutes(Notes, files, shuffled);
  }

  predicate OfFile(d: Diagnostic, path: string) {
    d.path == path && d.side == "" && d.revision == ""
  }

  lemma HeadNotesName(fc: FileChange, d: Diagnostic)
    requires d in HeadNotes(fc)
    ensures OfFile(d, fc.path)
  {
    if fc.head.Some? && fc.head.value.parseStatus == "syntax_errors" {
      var i :| 0 <= i < |HeadNotes(fc)| && HeadNotes(fc)[i] == d;
      assert d == SyntaxNote(fc.path)(fc.head.value.syntaxErrors[i]);
    }
  }

  lemma RangeNotesName(fc: FileChange, d: Diagnostic)
    requires d in RangeNotes(fc.path, fc.changedRanges)
    ensures OfFile(d, fc.path)
  {
    var invalid := Filter(Invalid, fc.changedRanges);
    var i :| 0 <= i < |invalid| && RangeNotes(fc.path, fc.changedRanges)[i] == d;
    assert d == RangeNote(fc.path)(invalid[i]);
  }

  /** The file pipeline's diagnostics name the file they come from, and belong to no side. */
  lemma NotesName(fc: FileChange, d: Diagnostic)
    requires d in Notes(fc)
    ensures OfFile(d, fc.path)
  {
    if d in HeadNotes(fc) {
      HeadNotesName(fc, d);
    } else if d in RangeNotes(fc.path, fc.changedRanges) {
      RangeNotesName(fc, d);
    } else {
      assert d in ValidateFileChange(fc);
    }
  }
}

/** What running the printed "show everything" command shows (cmd/coach/report_see_all_command.go). */
module SeeAllMeaning {
  import opened Filtering
  import opened Options
  import opened SeeAllCommand
  import opened ShellWords

  function Widening(fs: FlagSet): Binding -> bool {
    (b: Binding) => b.name !in fs.narrowing
  }

  lemma {:induction false} WidenedFilters(fs: FlagSet, bs: seq<Binding>)
    ensures Widened(fs, bs) == Filter(Widening(fs), bs)
  {
    if bs != [] {
      WidenedFilters(fs, bs[1..]);
      assert [bs[0]] + bs[1..] == bs;
      FilterCons(Widening(fs), bs[0], bs[1..]);
    }
  }

  /** Neither a severity floor nor a cap. */
  predicate Shows(b: Binding) {
    b.name != "min-severity" && b.name != "top"
  }

  lemma NarrowingNames(b: Binding)
    ensures Widening(CODESIGNAL)(b) <==> Shows(b)
  {
  }

  lemma WidenedShows(bs: seq<Binding>)
    ensures Widened(CODESIGNAL, bs) == Filter(Shows, bs)
  {
    WidenedFilters(CODESIGNAL, bs);
    forall b ensures Widening(CODESIGNAL)(b) == Shows(b) { NarrowingNames(b); }
    SameFilter(Widening(CODESIGNAL), Shows, bs);
  }

  /** Run from the printed command the report is shown in full: no severity floor and no cap are left, and every other
      binding and positional of the invocation is there, in its order. */
  lemma CommandShowsEverything(args: seq<string>)
    requires Parse(CODESIGNAL, args).Ok?
    ensures var run := Parse(CODESIGNAL, Kept(CODESIGNAL, args));
      && run.Ok? && run.positionals == Parse(CODESIGNAL, args).positionals
      && run.bindings == Filter(Shows, Parse(CODESIGNAL, args).bindings)
  {
    KeptMeansTheSame(CODESIGNAL, args);
    WidenedShows(Parse(CODESIGNAL, args).bindings);
  }

  /** A shell reads the printed line back as the program, its subcommand and the kept arguments. */
  lemma CommandWords(args: seq<string>, unsafe: string -> bool)
    requires Parse(CODESIGNAL, args).Ok? && Command(args, unsafe) != ""
    ensures Split(Command(args, unsafe)) == Some(["coach", "codesignal"] + Kept(CODESIGNAL, args))
  {
    CommandRunsTheSame(args, unsafe);
    assert COMMAND == ["coach", "codesignal"];
  }

  /** A word of letters, digits and the harmless marks, without a leading "=", is printed bare; any other one in quotes. */
  lemma PrintedBare(word: string)
    ensures ShellQuote(word) == word <==>
            word != "" && word[0] != '=' && forall i | 0 <= i < |word| :: Harmless(word[i])
  {
    forall i | 0 <= i < |word| ensures WordChar(word[i]) <==> Harmless(word[i]) { MarkIs(word[i]); }
    if word != "" { MarkIs(word[0]); }
    if !SafeWord(word) { EscapedLength(word); }
  }

  predicate Harmless(c: char) {
    'a' <= c <= 'z' || 'A' <= c <= 'Z' || '0' <= c <= '9' || c in "@%+=:,./_-"
  }

  lemma MarkIs(c: char)
    ensures c in "@%+=:,./_-" <==> c in {'@', '%', '+', ':', ',', '.', '/', '_', '-'} || c == '='
  {
    var marks := "@%+=:,./_-";
    assert marks[0] == '@' && marks[1] == '%' && marks[2] == '+' && marks[3] == '=' && marks[4] == ':' && marks[5] == ','
           && marks[6] == '.' && marks[7] == '/' && marks[8] == '_' && marks[9] == '-';
  }

  lemma {:induction false} EscapedLength(word: string)
    ensures |EscapeQuotes(word)| >= |word|
  {
    if word != "" { EscapedLength(word[1..]); }
  }
}

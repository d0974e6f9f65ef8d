/** Quoting words for a shell line, and splitting such a line the way a POSIX shell does
    (cmd/coach/report_see_all_command.go; POSIX.1-2017 Shell Command Language, sections 2.2 and 2.3). */
module ShellWords {
  import opened Options

  // ----- the printer -----

  predicate LeadChar(c: char) {
    'A' <= c <= 'Z' || 'a' <= c <= 'z' || '0' <= c <= '9' || c in {'@', '%', '+', ':', ',', '.', '/', '_', '-'}
  }

  predicate WordChar(c: char) {
    LeadChar(c) || c == '='
  }

  /** A word the shell reads back unchanged without quotes. A leading "=" is left out: zsh expands it. */
  predicate SafeWord(word: string) {
    word != "" && LeadChar(word[0]) && forall i | 1 <= i < |word| :: WordChar(word[i])
  }

  /** Every `'` becomes `'\\''`: close the quotes, an escaped quote, open them again. */
  function EscapeQuotes(word: string): string {
    if word == "" then "" else (if word[0] == '\'' then "'\\''" else [word[0]]) + EscapeQuotes(word[1..])
  }

  function ShellQuote(word: string): string {
    if SafeWord(word) then word else "'" + EscapeQuotes(word) + "'"
  }

  function Join(words: seq<string>): string {
    if words == [] then ""
    else if |words| == 1 then ShellQuote(words[0])
    else ShellQuote(words[0]) + " " + Join(words[1..])
  }

  method ShellJoin(words: seq<string>) returns (line: string)
    ensures line == Join(words)
  {
    var quoted := [];
    for i := 0 to |words|
      invariant |quoted| == i && forall k | 0 <= k < i :: quoted[k] == ShellQuote(words[k])
    {
      quoted := quoted + [ShellQuote(words[i])];
    }
    line := "";
    for i := |quoted| downto 0
      invariant line == Join(words[i..])
    {
      line := if i == |quoted| - 1 then quoted[i] else quoted[i] + " " + line;
      assert words[i..][1..] == words[i + 1..];
    }
    assert words[0..] == words;
  }

  // ----- the shell's reading -----

  datatype Mode = Between | InWord | Quoted | Escaped(inWord: bool)

  predicate IsBlank(c: char) {
    c == ' ' || c == '\t'
  }

  /** Characters that are operators, begin an expansion or form a pattern when unquoted. */
  predicate IsSpecial(c: char) {
    c in {'|', '&', ';', '<', '>', '(', ')', '$', '`', '"', '*', '?', '[', '\n'}
  }

  /** Characters that mean more than themselves at the start of a word: a comment, a tilde prefix. */
  predicate IsLeadSpecial(c: char) {
    IsSpecial(c) || c == '#' || c == '~'
  }

  /** The words of one line, or none when it is more than a list of plain words: an operator, an
      expansion, a pattern, a comment, or an unfinished quotation. */
  function Scan(s: string, mode: Mode, cur: string, words: seq<string>): Option<seq<string>> {
    if s == "" then
      match mode
      case Between => Some(words)
      case InWord => Some(words + [cur])
      case Quoted => None
      case Escaped(_) => None
    else
      var c, rest := s[0], s[1..];
      match mode
      case Between =>
        if IsBlank(c) then Scan(rest, Between, "", words)
        else if c == '\'' then Scan(rest, Quoted, "", words)
        else if c == '\\' then Scan(rest, Escaped(false), "", words)
        else if IsLeadSpecial(c) then None
        else Scan(rest, InWord, [c], words)
      case InWord =>
        if IsBlank(c) then Scan(rest, Between, "", words + [cur])
        else if c == '\'' then Scan(rest, Quoted, cur, words)
        else if c == '\\' then Scan(rest, Escaped(true), cur, words)
        else if IsSpecial(c) then None
        else Scan(rest, InWord, cur + [c], words)
      case Quoted =>
        if c == '\'' then Scan(rest, InWord, cur, words) else Scan(rest, Quoted, cur + [c], words)
      case Escaped(inWord) =>
        if c == '\n' then Scan(rest, if inWord then InWord else Between, cur, words)
        else Scan(rest, InWord, cur + [c], words)
  }

  function Split(line: string): Option<seq<string>> {
    Scan(line, Between, "", [])
  }

  // ----- the round trip -----

  lemma {:induction false} ScanPlain(w: string, t: string, cur: string, words: seq<string>)
    requires forall i | 0 <= i < |w| :: WordChar(w[i])
    ensures Scan(w + t, InWord, cur, words) == Scan(t, InWord, cur + w, words)
  {
    if w == "" {
      assert w + t == t && cur + w == cur;
    } else {
      assert (w + t)[0] == w[0] && (w + t)[1..] == w[1..] + t;
      assert WordChar(w[0]);
      ScanPlain(w[1..], t, cur + [w[0]], words);
      assert cur + [w[0]] + w[1..] == cur + w;
    }
  }

  lemma {:induction false} ScanQuoted(w: string, t: string, cur: string, words: seq<string>)
    ensures Scan(EscapeQuotes(w) + "'" + t, Quoted, cur, words) == Scan(t, InWord, cur + w, words)
  {
    if w == "" {
      assert (EscapeQuotes(w) + "'" + t)[1..] == t && cur + w == cur;
    } else {
      var tail := EscapeQuotes(w[1..]) + "'" + t;
      ScanQuoted(w[1..], t, cur + [w[0]], words);
      assert cur + [w[0]] + w[1..] == cur + w;
      if w[0] == '\'' {
        assert EscapeQuotes(w) + "'" + t == "'\\''" + tail;
        ScanEscapedQuote(tail, cur, words);
      } else {
        assert EscapeQuotes(w) + "'" + t == [w[0]] + tail;
        assert ([w[0]] + tail)[1..] == tail;
      }
    }
  }

  lemma ScanEscapedQuote(tail: string, cur: string, words: seq<string>)
    ensures Scan("'\\''" + tail, Quoted, cur, words) == Scan(tail, Quoted, cur + ['\''], words)
  {
    var s := "'\\''" + tail;
    assert s[0] == '\'' && s[1..][0] == '\\' && s[2..][0] == '\'' && s[3..][0] == '\'';
    assert s[1..][1..] == s[2..] && s[2..][1..] == s[3..] && s[3..][1..] == tail;
    assert Scan(s, Quoted, cur, words) == Scan(s[1..], InWord, cur, words);
    assert Scan(s[1..], InWord, cur, words) == Scan(s[2..], Escaped(true), cur, words);
    assert Scan(s[2..], Escaped(true), cur, words) == Scan(s[3..], InWord, cur + ['\''], words);
    assert Scan(s[3..], InWord, cur + ['\''], words) == Scan(tail, Quoted, cur + ['\''], words);
  }

  lemma ScanQuotedWord(w: string, t: string, words: seq<string>)
    ensures Scan("'" + EscapeQuotes(w) + "'" + t, Between, "", words) == Scan(t, InWord, w, words)
  {
    var s, tail := "'" + EscapeQuotes(w) + "'" + t, EscapeQuotes(w) + "'" + t;
    assert s == "'" + tail && s[0] == '\'' && s[1..] == tail;
    ScanQuoted(w, t, "", words);
    assert "" + w == w;
  }

  lemma ScanLead(c: char, rest: string, words: seq<string>)
    requires LeadChar(c)
    ensures Scan([c] + rest, Between, "", words) == Scan(rest, InWord, [c], words)
  {
    assert ([c] + rest)[1..] == rest;
    assert !IsBlank(c) && !IsLeadSpecial(c);
  }

  lemma ScanSafeWord(w: string, t: string, words: seq<string>)
    requires SafeWord(w)
    ensures Scan(w + t, Between, "", words) == Scan(t, InWord, w, words)
  {
    ScanLead(w[0], w[1..] + t, words);
    assert [w[0]] + (w[1..] + t) == w + t;
    ScanPlain(w[1..], t, [w[0]], words);
    assert [w[0]] + w[1..] == w;
  }

  lemma ScanWord(w: string, t: string, words: seq<string>)
    ensures Scan(ShellQuote(w) + t, Between, "", words) == Scan(t, InWord, w, words)
  {
    if SafeWord(w) {
      ScanSafeWord(w, t, words);
    } else {
      ScanQuotedWord(w, t, words);
    }
  }

  lemma ScanBlank(t: string, w: string, words: seq<string>)
    ensures Scan(" " + t, InWord, w, words) == Scan(t, Between, "", words + [w])
  {
    assert (" " + t)[0] == ' ' && (" " + t)[1..] == t;
  }

  lemma ScanFirst(w: string, t: string, words: seq<string>)
    ensures Scan(ShellQuote(w) + " " + t, Between, "", words) == Scan(t, Between, "", words + [w])
  {
    assert ShellQuote(w) + " " + t == ShellQuote(w) + (" " + t);
    ScanWord(w, " " + t, words);
    ScanBlank(t, w, words);
  }

  lemma ScanLast(w: string, words: seq<string>)
    ensures Scan(ShellQuote(w), Between, "", words) == Some(words + [w])
  {
    assert ShellQuote(w) + "" == ShellQuote(w);
    ScanWord(w, "", words);
  }

  lemma NextWord(words: seq<string>, rest: seq<string>)
    requires rest != []
    ensures words + [rest[0]] + rest[1..] == words + rest
  {
  }

  lemma {:induction false} ScanJoined(rest: seq<string>, words: seq<string>)
    ensures Scan(Join(rest), Between, "", words) == Some(words + rest)
  {
    if rest == [] {
      assert words + rest == words;
    } else {
      NextWord(words, rest);
      if |rest| == 1 {
        assert words + [rest[0]] + rest[1..] == words + [rest[0]];
        ScanLast(rest[0], words);
      } else {
        ScanFirst(rest[0], Join(rest[1..]), words);
        ScanJoined(rest[1..], words + [rest[0]]);
      }
    }
  }

  /** The shell reads back exactly the words that were printed, whatever they contain. */
  lemma SplitUndoesJoin(words: seq<string>)
    ensures Split(Join(words)) == Some(words)
  {
    ScanJoined(words, []);
    assert [] + words == words;
  }

  /** A printed line is empty only for no words at all. */
  lemma JoinIsEmptyOnlyForNoWords(words: seq<string>)
    ensures Join(words) == "" <==> words == []
  {
    SplitUndoesJoin(words);
    assert Split("") == Some([]);
  }
}

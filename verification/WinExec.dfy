/**
  * The Windows command line printer (scripts/win-exec.ts) against its two readers: the caret
  * pass of cmd.exe, and the argv rules of Microsoft's "Parsing C command-line arguments".
  */
module WinExec {

  // ---------------------------------------------------------------- the printer

  /** The characters the printer puts a caret before. */
  predicate CaretChar(c: char) {
    || c == '(' || c == ')' || c == '[' || c == ']' || c == '%' || c == '!' || c == '^' || c == '\"' || c == '`'
    || c == '<' || c == '>' || c == '&' || c == '|' || c == ';' || c == ',' || c == ' ' || c == '*' || c == '?'
  }

  function CaretOne(c: char): string {
    if CaretChar(c) then ['^', c] else [c]
  }

  function CaretEscape(text: string): string {
    if text == [] then [] else CaretOne(text[0]) + CaretEscape(text[1..])
  }

  function Slashes(n: nat): string {
    seq(n, _ => '\\')
  }

  /** The escaped form of `arg` when `slashes` backslashes before it are still unwritten. */
  function QuoteBody(arg: string, slashes: nat): string {
    if arg == [] then Slashes(slashes * 2)
    else if arg[0] == '\\' then QuoteBody(arg[1..], slashes + 1)
    else if arg[0] == '\"' then Slashes(slashes * 2 + 1) + ['\"'] + QuoteBody(arg[1..], 0)
    else Slashes(slashes) + [arg[0]] + QuoteBody(arg[1..], 0)
  }

  function QuoteForCrt(arg: string): string {
    ['\"'] + QuoteBody(arg, 0) + ['\"']
  }

  /** One argument as it is written on the line. */
  function Token(arg: string, twice: bool): string {
    var once := CaretEscape(QuoteForCrt(arg));
    if twice then CaretEscape(once) else once
  }

  /** Every argument after the first piece, each behind its separator. */
  function Tokens(args: seq<string>, twice: bool): string {
    if args == [] then [] else [' '] + Token(args[0], twice) + Tokens(args[1..], twice)
  }

  function Line(batch: string, args: seq<string>, twice: bool): string {
    CaretEscape(batch) + Tokens(args, twice)
  }

  lemma Associate<T>(a: seq<T>, b: seq<T>, c: seq<T>)
    ensures a + b + c == a + (b + c)
  {
  }

  lemma FirstOfThree<T>(x: T, a: seq<T>, b: seq<T>)
    ensures ([x] + a + b)[0] == x && ([x] + a + b)[1..] == a + b
  {
  }

  lemma CaretStep(before: string, text: string, i: nat)
    requires i < |text|
    ensures before + CaretEscape(text[i..]) == before + CaretOne(text[i]) + CaretEscape(text[i + 1..])
  {
    assert text[i..][1..] == text[i + 1..];
  }

  method CaretEscapeText(text: string) returns (out: string)
    ensures out == CaretEscape(text)
  {
    out := [];
    for i := 0 to |text|
      invariant out + CaretEscape(text[i..]) == CaretEscape(text)
    {
      ghost var before := out;
      if CaretChar(text[i]) {
        out := out + ['^'];
      }
      out := out + [text[i]];
      assert out == before + CaretOne(text[i]);
      CaretStep(before, text, i);
    }
    assert text[|text|..] == [];
  }

  method QuoteArgument(arg: string) returns (quoted: string)
    ensures quoted == QuoteForCrt(arg)
  {
    var escaped: string := [];
    var slashes := 0;
    for i := 0 to |arg|
      invariant escaped + QuoteBody(arg[i..], slashes) == QuoteBody(arg, 0)
    {
      assert arg[i..][1..] == arg[i + 1..];
      if arg[i] == '\\' {
        slashes := slashes + 1;
      } else {
        var piece := if arg[i] == '\"' then Slashes(slashes * 2 + 1) + ['\"'] else Slashes(slashes) + [arg[i]];
        Associate(escaped, piece, QuoteBody(arg[i + 1..], 0));
        escaped := escaped + piece;
        slashes := 0;
      }
    }
    assert arg[|arg|..] == [];
    escaped := escaped + Slashes(slashes * 2);
    quoted := ['\"'] + escaped + ['\"'];
  }

  /** The verbatim `/c` argument: the pieces joined by spaces, in outer quotes. */
  method ThroughCmd(batch: string, args: seq<string>) returns (argument: string)
    ensures argument == Argument(batch, args)
  {
    var twice := NpmBinCmd(batch);
    var line := CaretEscapeText(batch);
    for i := 0 to |args|
      invariant line + Tokens(args[i..], twice) == Line(batch, args, twice)
    {
      var quoted := QuoteArgument(args[i]);
      var token := CaretEscapeText(quoted);
      if twice {
        token := CaretEscapeText(token);
      }
      assert args[i..][1..] == args[i + 1..];
      Associate(line, [' '] + token, Tokens(args[i + 1..], twice));
      line := line + ([' '] + token);
    }
    assert args[|args|..] == [];
    assert line + [] == line;
    argument := ['\"'] + line + ['\"'];
  }

  // ---------------------------------------------------------------- local npm shims

  function LowerChar(c: char): char {
    if 'A' <= c <= 'Z' then (c as int + 32) as char else if c == '/' then '\\' else c
  }

  /** `file.replaceAll("/", "\\").toLowerCase()`, for ASCII letters. */
  function Lower(file: string): string {
    seq(|file|, i requires 0 <= i < |file| => LowerChar(file[i]))
  }

  function Split(s: string, sep: char): (parts: seq<string>)
    ensures parts != []
  {
    if s == [] then [[]]
    else
      var rest := Split(s[1..], sep);
      if s[0] == sep then [[]] + rest else [[s[0]] + rest[0]] + rest[1..]
  }

  function LastIndexOf(parts: seq<string>, word: string): (r: int)
    ensures -1 <= r < |parts|
    ensures r >= 0 ==> parts[r] == word
    ensures forall i :: r < i < |parts| ==> parts[i] != word
  {
    if parts == [] then -1
    else if parts[|parts| - 1] == word then |parts| - 1
    else LastIndexOf(parts[..|parts| - 1], word)
  }

  predicate EndsWith(s: string, suffix: string) {
    |suffix| <= |s| && s[|s| - |suffix|..] == suffix
  }

  predicate NpmBinCmd(file: string) {
    var parts := Split(Lower(file), '\\');
    var bin := LastIndexOf(parts, ".bin");
    if bin < 1 || parts[bin - 1] != "node_modules" then false
    else
      var leaf := if bin + 1 < |parts| then parts[bin + 1] else "";
      EndsWith(leaf, ".cmd") && bin == |parts| - 2
  }

  /** A shim is exactly a path ending in node_modules\.bin\<name>.cmd. */
  lemma NpmBinCmdMeans(file: string)
    ensures var parts := Split(Lower(file), '\\');
            NpmBinCmd(file) <==>
              && |parts| >= 3
              && parts[|parts| - 3] == "node_modules" && parts[|parts| - 2] == ".bin"
              && EndsWith(parts[|parts| - 1], ".cmd")
  {
    var parts := Split(Lower(file), '\\');
    var n := |parts|;
    if n >= 3 && EndsWith(parts[n - 1], ".cmd") {
      assert parts[n - 1] != ".bin" by {
        assert |".bin"| == |".cmd"| && ".bin"[1] != ".cmd"[1];
      }
    }
  }

  function Join(parts: seq<string>, sep: char): string {
    if parts == [] then [] else if |parts| == 1 then parts[0] else parts[0] + [sep] + Join(parts[1..], sep)
  }

  /** The parts are the text between the separators. */
  lemma {:induction false} SplitJoins(s: string, sep: char)
    ensures Join(Split(s, sep), sep) == s
    ensures forall i :: 0 <= i < |Split(s, sep)| ==> sep !in Split(s, sep)[i]
  {
    if s != [] {
      var rest := Split(s[1..], sep);
      SplitJoins(s[1..], sep);
      if s[0] == sep {
        assert ([[]] + rest)[1..] == rest;
        assert [] + [sep] + s[1..] == s;
      } else {
        JoinGrows(s[0], rest, sep);
        assert s == [s[0]] + s[1..];
      }
    }
  }

  lemma JoinGrows(c: char, parts: seq<string>, sep: char)
    requires parts != []
    ensures Join([[c] + parts[0]] + parts[1..], sep) == [c] + Join(parts, sep)
  {
    var grown := [[c] + parts[0]] + parts[1..];
    assert grown[0] == [c] + parts[0] && grown[1..] == parts[1..];
    if |parts| > 1 {
      Associate([c], parts[0], [sep]);
      Associate([c], parts[0] + [sep], Join(parts[1..], sep));
    }
  }

  /** Case and the kind of slash do not matter to a path. */
  lemma LowerFolds(file: string, i: nat)
    requires i < |file|
    ensures |Lower(file)| == |file|
    ensures file[i] == '/' || file[i] == '\\' ==> Lower(file)[i] == '\\'
    ensures 'A' <= file[i] <= 'Z' ==> 'a' <= Lower(file)[i] <= 'z' && Lower(file)[i] as int - 'a' as int == file[i] as int - 'A' as int
    ensures file[i] != '/' && !('A' <= file[i] <= 'Z') ==> Lower(file)[i] == file[i]
  {
  }

  // ---------------------------------------------------------------- reader 1: the caret pass

  /** A character left by a pass; it is active when nothing quoted or escaped it. */
  datatype Cell = Cell(ch: char, active: bool)

  /** One parse of a line by cmd.exe: a caret escapes, except inside quotes nothing escaped. */
  function CaretPass(text: string, quoted: bool): seq<Cell> {
    if text == [] then []
    else if quoted then [Cell(text[0], false)] + CaretPass(text[1..], text[0] != '\"')
    else if text[0] == '^' then
      if |text| == 1 then [] else [Cell(text[1], false)] + CaretPass(text[2..], false)
    else [Cell(text[0], true)] + CaretPass(text[1..], text[0] == '\"')
  }

  function Text(cells: seq<Cell>): string {
    if cells == [] then [] else [cells[0].ch] + Text(cells[1..])
  }

  /** The listed metacharacters a pass would act on. */
  function ActiveMetas(cells: seq<Cell>): string {
    if cells == [] then []
    else (if cells[0].active && CaretChar(cells[0].ch) then [cells[0].ch] else []) + ActiveMetas(cells[1..])
  }

  /** What ends or redirects a command when it is active. */
  predicate EndsCommand(c: char) {
    c == '&' || c == '|' || c == '<' || c == '>' || c == '(' || c == ')' || c == '\n'
  }

  /** What separates words when it is active. */
  predicate SeparatesWords(c: char) {
    c == ' ' || c == '\t' || c == ',' || c == ';' || c == '='
  }

  predicate Acts(c: char) {
    EndsCommand(c) || SeparatesWords(c)
  }

  /** Everything on the line cmd.exe would act on, in order. */
  function Active(cells: seq<Cell>): string {
    if cells == [] then []
    else (if cells[0].active && Acts(cells[0].ch) then [cells[0].ch] else []) + Active(cells[1..])
  }

  predicate Stops(c: Cell) {
    c.active && EndsCommand(c.ch)
  }

  predicate Separates(c: Cell) {
    c.active && SeparatesWords(c.ch)
  }

  /** The one command cmd.exe runs: what stands before the first active character that ends it. */
  function Statement(cells: seq<Cell>): seq<Cell> {
    if cells == [] || Stops(cells[0]) then [] else [cells[0]] + Statement(cells[1..])
  }

  /** The command word: everything before the first active separator. */
  function Command(cells: seq<Cell>): seq<Cell> {
    if cells == [] || Separates(cells[0]) then [] else [cells[0]] + Command(cells[1..])
  }

  /** What follows the command word: the text a batch file sees as its arguments. */
  function Tail(cells: seq<Cell>): seq<Cell> {
    if cells == [] then [] else if Separates(cells[0]) then cells[1..] else Tail(cells[1..])
  }

  // ---------------------------------------------------------------- reader 2: argv

  function LeadingSlashes(s: string): (n: nat)
    ensures n <= |s| && (forall i :: 0 <= i < n ==> s[i] == '\\') && (n < |s| ==> s[n] != '\\')
  {
    if s != [] && s[0] == '\\' then 1 + LeadingSlashes(s[1..]) else 0
  }

  predicate IsBlank(c: char) {
    c == ' ' || c == '\t'
  }

  /**
    * The argv rules: blanks separate arguments outside quotes; 2n backslashes before a quote
    * give n and the quote delimits, 2n+1 give n and a literal quote; other backslashes are
    * literal; a doubled quote inside quotes is a literal one. `cur` is the argument so far.
    */
  function Argv(s: string, inArg: bool, inQuotes: bool, cur: string): seq<string>
    decreases |s|
  {
    if s == [] then (if inArg then [cur] else [])
    else if !inQuotes && IsBlank(s[0]) then (if inArg then [cur] else []) + Argv(s[1..], false, false, [])
    else
      var n := LeadingSlashes(s);
      if n > 0 then
        if n < |s| && s[n] == '\"' then
          if n % 2 == 0 then Argv(s[n..], true, inQuotes, cur + Slashes(n / 2))
          else Argv(s[n + 1..], true, inQuotes, cur + Slashes(n / 2) + ['\"'])
        else Argv(s[n..], true, inQuotes, cur + Slashes(n))
      else if s[0] == '\"' then
        if inQuotes && |s| > 1 && s[1] == '\"' then Argv(s[2..], true, true, cur + ['\"'])
        else Argv(s[1..], true, !inQuotes, cur)
      else Argv(s[1..], true, inQuotes, cur + [s[0]])
  }

  function ParseArguments(tail: string): seq<string> {
    Argv(tail, false, false, [])
  }

  // ---------------------------------------------------------------- the caret pass undoes the carets

  /** The cells an escaped text leaves: its own characters, no listed one active. */
  function Cells(text: string): seq<Cell> {
    if text == [] then [] else [Cell(text[0], !CaretChar(text[0]))] + Cells(text[1..])
  }

  lemma {:induction false} PassOfEscaped(text: string, rest: string)
    ensures CaretPass(CaretEscape(text) + rest, false) == Cells(text) + CaretPass(rest, false)
  {
    if text == [] {
      assert CaretEscape(text) + rest == rest;
      assert Cells(text) + CaretPass(rest, false) == CaretPass(rest, false);
    } else {
      Associate(CaretOne(text[0]), CaretEscape(text[1..]), rest);
      PassOfOne(text[0], CaretEscape(text[1..]) + rest);
      PassOfEscaped(text[1..], rest);
      Associate([Cell(text[0], !CaretChar(text[0]))], Cells(text[1..]), CaretPass(rest, false));
    }
  }

  lemma PassOfOne(c: char, more: string)
    ensures CaretPass(CaretOne(c) + more, false) == [Cell(c, !CaretChar(c))] + CaretPass(more, false)
  {
    var s := CaretOne(c) + more;
    if CaretChar(c) {
      assert s[0] == '^' && s[1] == c && s[2..] == more;
    } else {
      assert s[0] == c && s[1..] == more;
    }
  }

  /** What a pass makes of the tokens: each behind the active space the printer wrote before it. */
  function TokenCells(args: seq<string>, twice: bool): seq<Cell> {
    if args == [] then []
    else [Cell(' ', true)] + Cells(Unescaped(args[0], twice)) + TokenCells(args[1..], twice)
  }

  /** A token after one pass. */
  function Unescaped(arg: string, twice: bool): string {
    if twice then CaretEscape(QuoteForCrt(arg)) else QuoteForCrt(arg)
  }

  lemma {:induction false} PassOfTokens(args: seq<string>, twice: bool)
    ensures CaretPass(Tokens(args, twice), false) == TokenCells(args, twice)
  {
    if args != [] {
      var more := Tokens(args[1..], twice);
      var plain := Unescaped(args[0], twice);
      FirstOfThree(' ', CaretEscape(plain), more);
      PassOfEscaped(plain, more);
      PassOfTokens(args[1..], twice);
      Associate([Cell(' ', true)], Cells(plain), TokenCells(args[1..], twice));
    }
  }

  lemma PassOfLine(batch: string, args: seq<string>, twice: bool)
    ensures CaretPass(Line(batch, args, twice), false) == Cells(batch) + TokenCells(args, twice)
  {
    PassOfEscaped(batch, Tokens(args, twice));
    PassOfTokens(args, twice);
  }

  // ---------------------------------------------------------------- nothing listed is active but the separators

  lemma {:induction false} ActiveMetasOfCells(text: string, more: seq<Cell>)
    ensures ActiveMetas(Cells(text) + more) == ActiveMetas(more)
  {
    if text == [] {
      assert Cells(text) + more == more;
    } else {
      var cell := Cell(text[0], !CaretChar(text[0]));
      FirstOfThree(cell, Cells(text[1..]), more);
      ActiveMetasOfCells(text[1..], more);
      assert !(cell.active && CaretChar(cell.ch));
    }
  }

  function Spaces(n: nat): string {
    if n == 0 then [] else [' '] + Spaces(n - 1)
  }

  lemma {:induction false} ActiveMetasOfTokens(args: seq<string>, twice: bool)
    ensures ActiveMetas(TokenCells(args, twice)) == Spaces(|args|)
  {
    if args != [] {
      var rest := TokenCells(args[1..], twice);
      FirstOfThree(Cell(' ', true), Cells(Unescaped(args[0], twice)), rest);
      ActiveMetasOfCells(Unescaped(args[0], twice), rest);
      ActiveMetasOfTokens(args[1..], twice);
    }
  }

  // ---------------------------------------------------------------- command word and tail

  /** The characters cmd.exe acts on that the printer writes without a caret. */
  predicate Unguarded(c: char) {
    c == '\t' || c == '=' || c == '\n'
  }

  /** The printer guards everything else cmd.exe acts on. */
  lemma GuardsTheRest(c: char)
    ensures Acts(c) && !CaretChar(c) <==> Unguarded(c)
  {
  }

  function Loose(text: string): string {
    if text == [] then [] else (if Unguarded(text[0]) then [text[0]] else []) + Loose(text[1..])
  }

  lemma {:induction false} LooseOfConcat(a: string, b: string)
    ensures Loose(a + b) == Loose(a) + Loose(b)
  {
    if a == [] {
      assert a + b == b && Loose(a) + Loose(b) == Loose(b);
    } else {
      assert (a + b)[0] == a[0] && (a + b)[1..] == a[1..] + b;
      LooseOfConcat(a[1..], b);
    }
  }

  lemma {:induction false} LooseOfGuarded(text: string)
    requires forall c :: c in text ==> !Unguarded(c)
    ensures Loose(text) == []
  {
    if text != [] {
      assert text[0] in text && forall c :: c in text[1..] ==> c in text;
      LooseOfGuarded(text[1..]);
    }
  }

  lemma LooseOfHead(c: char, rest: string)
    ensures Loose([c] + rest) == (if Unguarded(c) then [c] else []) + Loose(rest)
  {
    assert ([c] + rest)[0] == c && ([c] + rest)[1..] == rest;
  }

  /** Carets are added to the text, nothing loose is. */
  lemma {:induction false} LooseOfEscaped(text: string)
    ensures Loose(CaretEscape(text)) == Loose(text)
  {
    if text != [] {
      LooseOfOne(text[0], CaretEscape(text[1..]));
      LooseOfEscaped(text[1..]);
    }
  }

  lemma LooseOfOne(c: char, rest: string)
    ensures Loose(CaretOne(c) + rest) == (if Unguarded(c) then [c] else []) + Loose(rest)
  {
    LooseOfHead(c, rest);
    if CaretChar(c) {
      GuardsTheRest(c);
      LooseOfHead('^', [c] + rest);
      assert CaretOne(c) + rest == ['^'] + ([c] + rest);
    }
  }

  /** Nothing in a run of backslashes is loose. */
  lemma LooseOfPiece(n: nat, c: char, rest: string)
    ensures Loose(Slashes(n) + [c] + rest) == (if Unguarded(c) then [c] else []) + Loose(rest)
  {
    LooseOfGuarded(Slashes(n));
    Associate(Slashes(n), [c], rest);
    LooseOfConcat(Slashes(n), [c] + rest);
    LooseOfHead(c, rest);
  }

  lemma {:induction false} LooseOfBody(arg: string, slashes: nat)
    ensures Loose(QuoteBody(arg, slashes)) == Loose(arg)
  {
    if arg == [] {
      LooseOfGuarded(Slashes(slashes * 2));
    } else if arg[0] == '\\' {
      LooseOfBody(arg[1..], slashes + 1);
    } else {
      LooseOfBody(arg[1..], 0);
      LooseOfPiece(if arg[0] == '\"' then slashes * 2 + 1 else slashes, arg[0], QuoteBody(arg[1..], 0));
    }
  }

  lemma LooseOfQuoted(arg: string, twice: bool)
    ensures Loose(Unescaped(arg, twice)) == Loose(arg)
  {
    var body := QuoteBody(arg, 0);
    LooseOfBody(arg, 0);
    Associate(['\"'], body, ['\"']);
    LooseOfHead('\"', body + ['\"']);
    LooseOfConcat(body, ['\"']);
    LooseOfGuarded(['\"']);
    assert Loose(body) + [] == Loose(body);
    LooseOfEscaped(QuoteForCrt(arg));
  }

  lemma {:induction false} ActiveOfCells(text: string, more: seq<Cell>)
    ensures Active(Cells(text) + more) == Loose(text) + Active(more)
  {
    if text == [] {
      assert Cells(text) + more == more && Loose(text) + Active(more) == Active(more);
    } else {
      var cell := Cell(text[0], !CaretChar(text[0]));
      GuardsTheRest(text[0]);
      FirstOfThree(cell, Cells(text[1..]), more);
      ActiveOfCells(text[1..], more);
    }
  }

  /** Each separating space, followed by what is loose in the argument behind it. */
  function LooseOfArgs(args: seq<string>): string {
    if args == [] then [] else [' '] + Loose(args[0]) + LooseOfArgs(args[1..])
  }

  lemma {:induction false} ActiveOfTokens(args: seq<string>, twice: bool)
    ensures Active(TokenCells(args, twice)) == LooseOfArgs(args)
  {
    if args != [] {
      var rest := TokenCells(args[1..], twice);
      FirstOfThree(Cell(' ', true), Cells(Unescaped(args[0], twice)), rest);
      ActiveOfCells(Unescaped(args[0], twice), rest);
      LooseOfQuoted(args[0], twice);
      ActiveOfTokens(args[1..], twice);
      Associate([' '], Loose(args[0]), LooseOfArgs(args[1..]));
    }
  }

  lemma {:induction false} SplitAtFirstSeparator(text: string, more: seq<Cell>)
    requires '\t' !in text && '=' !in text
    requires more == [] || Separates(more[0])
    ensures Command(Cells(text) + more) == Cells(text)
    ensures Tail(Cells(text) + more) == if more == [] then [] else more[1..]
  {
    var cells := Cells(text) + more;
    if text == [] {
      assert cells == more;
    } else {
      assert cells[0] == Cell(text[0], !CaretChar(text[0]));
      assert cells[1..] == Cells(text[1..]) + more;
      GuardsTheRest(text[0]);
      SplitAtFirstSeparator(text[1..], more);
    }
  }

  /** The tail as text: the once-passed tokens separated by single spaces. */
  function Joined(args: seq<string>, twice: bool): string {
    if args == [] then []
    else if |args| == 1 then Unescaped(args[0], twice)
    else Unescaped(args[0], twice) + [' '] + Joined(args[1..], twice)
  }

  lemma {:induction false} TextOfCells(text: string)
    ensures Text(Cells(text)) == text
  {
    if text != [] {
      assert Cells(text)[1..] == Cells(text[1..]);
      TextOfCells(text[1..]);
    }
  }

  lemma {:induction false} TextOfConcat(a: seq<Cell>, b: seq<Cell>)
    ensures Text(a + b) == Text(a) + Text(b)
  {
    if a == [] {
      assert a + b == b;
    } else {
      assert (a + b)[1..] == a[1..] + b;
      TextOfConcat(a[1..], b);
    }
  }

  lemma {:induction false} TextOfTokens(args: seq<string>, twice: bool)
    requires args != []
    ensures Text(TokenCells(args, twice)[1..]) == Joined(args, twice)
  {
    var first := Cells(Unescaped(args[0], twice));
    var rest := TokenCells(args[1..], twice);
    FirstOfThree(Cell(' ', true), first, rest);
    TextOfConcat(first, rest);
    TextOfCells(Unescaped(args[0], twice));
    if |args| > 1 {
      TextOfTokens(args[1..], twice);
      assert rest[0] == Cell(' ', true);
    }
  }

  // ---------------------------------------------------------------- argv undoes the quoting

  lemma {:induction false} LeadingSlashesExactly(n: nat, more: string)
    requires more == [] || more[0] != '\\'
    ensures LeadingSlashes(Slashes(n) + more) == n
  {
    var s := Slashes(n) + more;
    if n == 0 {
      assert s == more;
    } else {
      assert s[1..] == Slashes(n - 1) + more;
      LeadingSlashesExactly(n - 1, more);
    }
  }

  /** Inside quotes, unwritten backslashes before an ordinary character come back as themselves. */
  lemma ArgvOrdinary(k: nat, c: char, more: string, cur: string)
    requires c != '\\' && c != '\"'
    ensures Argv(Slashes(k) + [c] + more, true, true, cur) == Argv(more, true, true, cur + Slashes(k) + [c])
  {
    var s := Slashes(k) + [c] + more;
    var from := [c] + more;
    assert s == Slashes(k) + from;
    LeadingSlashesExactly(k, from);
    LeadingSlashesExactly(0, from);
    assert Slashes(0) + from == from && from[1..] == more;
    if k == 0 {
      assert s == from && cur + Slashes(k) == cur;
    } else {
      assert s[k..] == from && s[k] == c;
    }
  }

  lemma ArgvClosingQuote(rest: string, cur: string)
    requires rest == [] || rest[0] == ' '
    ensures Argv(['\"'] + rest, true, true, cur) == Argv(rest, true, false, cur)
  {
    var s := ['\"'] + rest;
    assert s[0] == '\"' && s[1..] == rest;
    assert LeadingSlashes(s) == 0;
  }

  /** 2k backslashes before the closing quote give k. */
  lemma ArgvCloses(k: nat, rest: string, cur: string)
    requires rest == [] || rest[0] == ' '
    ensures Argv(Slashes(k * 2) + ['\"'] + rest, true, true, cur) == Argv(rest, true, false, cur + Slashes(k))
  {
    var s := Slashes(k * 2) + ['\"'] + rest;
    var closing := ['\"'] + rest;
    assert s == Slashes(k * 2) + closing;
    ArgvClosingQuote(rest, cur + Slashes(k));
    if k == 0 {
      assert s == closing && cur + Slashes(k) == cur;
    } else {
      LeadingSlashesExactly(k * 2, closing);
      assert s[k * 2] == '\"' && s[k * 2..] == closing;
      assert k * 2 / 2 == k;
    }
  }

  /** 2k+1 backslashes before a quote give k and the quote. */
  lemma ArgvEscapedQuote(k: nat, more: string, cur: string)
    ensures Argv(Slashes(k * 2 + 1) + ['\"'] + more, true, true, cur)
         == Argv(more, true, true, cur + Slashes(k) + ['\"'])
  {
    var s := Slashes(k * 2 + 1) + ['\"'] + more;
    Associate(Slashes(k * 2 + 1), ['\"'], more);
    LeadingSlashesExactly(k * 2 + 1, ['\"'] + more);
    assert s[k * 2 + 1] == '\"' && s[k * 2 + 2..] == more;
    assert (k * 2 + 1) / 2 == k;
  }

  lemma TakeFirst(cur: string, k: nat, arg: string)
    requires arg != []
    ensures cur + Slashes(k) + [arg[0]] + Slashes(0) + arg[1..] == cur + Slashes(k) + arg
    ensures arg[0] == '\\' ==> cur + Slashes(k + 1) + arg[1..] == cur + Slashes(k) + arg
  {
  }

  /** Inside quotes the escaped form reads back as the argument, with the backslashes held before it. */
  lemma {:induction false} ArgvReadsQuoted(arg: string, k: nat, rest: string, cur: string)
    requires rest == [] || rest[0] == ' '
    ensures Argv(QuoteBody(arg, k) + (['\"'] + rest), true, true, cur)
         == Argv(rest, true, false, cur + Slashes(k) + arg)
  {
    var closing := ['\"'] + rest;
    if arg == [] {
      ArgvCloses(k, rest, cur);
      Associate(Slashes(k * 2), ['\"'], rest);
      assert cur + Slashes(k) + arg == cur + Slashes(k);
    } else {
      TakeFirst(cur, k, arg);
      var body := QuoteBody(arg[1..], 0);
      if arg[0] == '\\' {
        ArgvReadsQuoted(arg[1..], k + 1, rest, cur);
      } else if arg[0] == '\"' {
        ArgvReadsQuoted(arg[1..], 0, rest, cur + Slashes(k) + [arg[0]]);
        Associate(Slashes(k * 2 + 1) + ['\"'], body, closing);
        ArgvEscapedQuote(k, body + closing, cur);
      } else {
        ArgvReadsQuoted(arg[1..], 0, rest, cur + Slashes(k) + [arg[0]]);
        Associate(Slashes(k) + [arg[0]], body, closing);
        ArgvOrdinary(k, arg[0], body + closing, cur);
      }
    }
  }

  lemma ArgvReadsOne(arg: string, rest: string)
    requires rest == [] || rest[0] == ' '
    ensures Argv(QuoteForCrt(arg) + rest, false, false, []) == Argv(rest, true, false, arg)
  {
    var s := QuoteForCrt(arg) + rest;
    assert s[0] == '\"' && s[1..] == QuoteBody(arg, 0) + (['\"'] + rest);
    assert LeadingSlashes(s) == 0;
    ArgvReadsQuoted(arg, 0, rest, []);
    assert [] + Slashes(0) + arg == arg;
  }

  lemma {:induction false} ArgvReadsAll(args: seq<string>)
    ensures ParseArguments(Joined(args, false)) == args
  {
    if |args| == 1 {
      ArgvReadsOne(args[0], []);
      assert QuoteForCrt(args[0]) + [] == QuoteForCrt(args[0]);
    } else if |args| > 1 {
      var rest := [' '] + Joined(args[1..], false);
      assert Joined(args, false) == QuoteForCrt(args[0]) + rest;
      ArgvReadsOne(args[0], rest);
      assert rest[1..] == Joined(args[1..], false);
      ArgvReadsAll(args[1..]);
    }
  }

  // ---------------------------------------------------------------- the second pass of a shim

  lemma {:induction false} SecondPass(args: seq<string>)
    ensures Text(CaretPass(Joined(args, true), false)) == Joined(args, false)
    ensures ActiveMetas(CaretPass(Joined(args, true), false)) == Spaces(if args == [] then 0 else |args| - 1)
  {
    if args != [] {
      var quoted := QuoteForCrt(args[0]);
      TextOfCells(quoted);
      if |args| == 1 {
        PassOfEscaped(quoted, []);
        assert CaretEscape(quoted) + [] == CaretEscape(quoted);
        assert Cells(quoted) + CaretPass([], false) == Cells(quoted) + [];
        ActiveMetasOfCells(quoted, []);
        assert Cells(quoted) + [] == Cells(quoted);
      } else {
        var rest := [' '] + Joined(args[1..], true);
        assert Joined(args, true) == CaretEscape(quoted) + rest;
        PassOfEscaped(quoted, rest);
        assert rest[1..] == Joined(args[1..], true);
        var later := CaretPass(rest[1..], false);
        assert CaretPass(rest, false) == [Cell(' ', true)] + later;
        SecondPass(args[1..]);
        TextOfConcat(Cells(quoted), CaretPass(rest, false));
        TextOfConcat([Cell(' ', true)], later);
        assert Text([Cell(' ', true)]) == [' '];
        ActiveMetasOfCells(quoted, CaretPass(rest, false));
        assert ([Cell(' ', true)] + later)[1..] == later;
      }
    }
  }

  /** What is loose in the arguments, around the spaces between them. */
  function LooseJoined(args: seq<string>): string {
    if args == [] then []
    else if |args| == 1 then Loose(args[0])
    else Loose(args[0]) + ([' '] + LooseJoined(args[1..]))
  }

  lemma {:induction false} SecondPassActive(args: seq<string>)
    ensures Active(CaretPass(Joined(args, true), false)) == LooseJoined(args)
  {
    if args != [] {
      var quoted := QuoteForCrt(args[0]);
      LooseOfQuoted(args[0], false);
      if |args| == 1 {
        PassOfEscaped(quoted, []);
        assert CaretEscape(quoted) + [] == CaretEscape(quoted);
        ActiveOfCells(quoted, []);
        assert Loose(quoted) + [] == Loose(quoted);
      } else {
        var rest := [' '] + Joined(args[1..], true);
        assert Joined(args, true) == CaretEscape(quoted) + rest;
        PassOfEscaped(quoted, rest);
        assert rest[1..] == Joined(args[1..], true);
        var later := CaretPass(rest[1..], false);
        assert CaretPass(rest, false) == [Cell(' ', true)] + later;
        SecondPassActive(args[1..]);
        ActiveOfCells(quoted, CaretPass(rest, false));
        assert ([Cell(' ', true)] + later)[1..] == later;
      }
    }
  }

  // ---------------------------------------------------------------- one command

  lemma {:induction false} LooseIsFrom(text: string, c: char)
    ensures c in Loose(text) <==> c in text && Unguarded(c)
  {
    if text != [] {
      LooseIsFrom(text[1..], c);
      assert text == [text[0]] + text[1..];
    }
  }

  predicate Among(args: seq<string>, c: char) {
    exists i :: 0 <= i < |args| && c in args[i]
  }

  lemma AmongSplits(args: seq<string>, c: char)
    requires args != []
    ensures Among(args, c) <==> c in args[0] || Among(args[1..], c)
  {
    if Among(args, c) && c !in args[0] {
      var i :| 0 <= i < |args| && c in args[i];
      assert args[1..][i - 1] == args[i];
    }
    if Among(args[1..], c) {
      var i :| 0 <= i < |args[1..]| && c in args[1..][i];
      assert args[i + 1] == args[1..][i];
    }
  }

  lemma {:induction false} LooseOfArgsIsFrom(args: seq<string>, c: char)
    ensures c != ' ' ==> (c in LooseOfArgs(args) <==> Among(args, c) && Unguarded(c))
  {
    if args != [] {
      LooseOfArgsIsFrom(args[1..], c);
      LooseIsFrom(args[0], c);
      AmongSplits(args, c);
    }
  }

  lemma {:induction false} LooseJoinedIsFrom(args: seq<string>, c: char)
    ensures c in LooseJoined(args) ==> c == ' ' || (Among(args, c) && Unguarded(c))
  {
    if args != [] {
      LooseJoinedIsFrom(args[1..], c);
      LooseIsFrom(args[0], c);
      AmongSplits(args, c);
    }
  }

  lemma StopIsActive(cells: seq<Cell>)
    requires cells != []
    ensures Stops(cells[0]) ==> cells[0].ch in Active(cells)
  {
    if Stops(cells[0]) {
      assert Active(cells)[0] == cells[0].ch;
    }
  }

  /** A line on which nothing that ends a command is active is one command. */
  lemma {:induction false} StatementWhole(cells: seq<Cell>)
    requires forall c :: c in Active(cells) ==> !EndsCommand(c)
    ensures Statement(cells) == cells
  {
    if cells != [] {
      StopIsActive(cells);
      assert forall c :: c in Active(cells[1..]) ==> c in Active(cells);
      StatementWhole(cells[1..]);
    }
  }

  lemma LineIsOneCommand(batch: string, args: seq<string>, twice: bool)
    requires '\n' !in batch && !Among(args, '\n')
    ensures var cells := CaretPass(Line(batch, args, twice), false);
            Statement(cells) == cells
  {
    var cells := CaretPass(Line(batch, args, twice), false);
    ActiveOfLine(batch, args, twice);
    forall c | c in Active(cells)
      ensures !EndsCommand(c)
    {
      LooseIsFrom(batch, c);
      LooseOfArgsIsFrom(args, c);
    }
    StatementWhole(cells);
  }

  lemma SecondLineIsOneCommand(args: seq<string>)
    requires !Among(args, '\n')
    ensures var cells := CaretPass(Joined(args, true), false);
            Statement(cells) == cells
  {
    var cells := CaretPass(Joined(args, true), false);
    SecondPassActive(args);
    forall c | c in Active(cells)
      ensures !EndsCommand(c)
    {
      LooseJoinedIsFrom(args, c);
    }
    StatementWhole(cells);
  }

  /**
    * Everything cmd.exe would act on in the first pass: the spaces between the pieces, and the
    * tabs, equals signs and line feeds of the pieces themselves.
    */
  lemma ActiveOfLine(batch: string, args: seq<string>, twice: bool)
    ensures Active(CaretPass(Line(batch, args, twice), false)) == Loose(batch) + LooseOfArgs(args)
  {
    PassOfLine(batch, args, twice);
    ActiveOfCells(batch, TokenCells(args, twice));
    ActiveOfTokens(args, twice);
  }

  // ---------------------------------------------------------------- a line break cuts the command

  /** Every line feed the pass left is active. */
  predicate BreaksAreActive(cells: seq<Cell>) {
    forall i :: 0 <= i < |cells| && cells[i].ch == '\n' ==> cells[i].active
  }

  lemma {:induction false} CellsBreaks(text: string)
    ensures |Cells(text)| == |text| && BreaksAreActive(Cells(text))
  {
    if text != [] {
      CellsBreaks(text[1..]);
    }
  }

  lemma {:induction false} TokenBreaks(args: seq<string>, twice: bool)
    ensures BreaksAreActive(TokenCells(args, twice))
  {
    if args != [] {
      CellsBreaks(Unescaped(args[0], twice));
      TokenBreaks(args[1..], twice);
    }
  }

  /** What is run has no line feed in it, nor has its tail. */
  lemma {:induction false} StatementLacksBreak(cells: seq<Cell>)
    requires BreaksAreActive(cells)
    ensures '\n' !in Text(Statement(cells)) && '\n' !in Text(Tail(Statement(cells)))
  {
    if cells != [] && !Stops(cells[0]) {
      assert BreaksAreActive(cells[1..]) by {
        forall i | 0 <= i < |cells[1..]| && cells[1..][i].ch == '\n'
          ensures cells[1..][i].active
        {
          assert cells[1..][i] == cells[i + 1];
        }
      }
      StatementLacksBreak(cells[1..]);
      assert cells[0].ch != '\n';
      assert Statement(cells)[1..] == Statement(cells[1..]);
    }
  }

  lemma {:induction false} TextIsFrom(text: string, quoted: bool, c: char)
    requires c !in text
    ensures c !in Text(Statement(CaretPass(text, quoted)))
    decreases |text|
  {
    if text != [] {
      assert forall x :: x in text[1..] ==> x in text;
      if quoted {
        TextIsFrom(text[1..], text[0] != '\"', c);
        StatementOfHead(Cell(text[0], false), CaretPass(text[1..], text[0] != '\"'), c);
      } else if text[0] == '^' {
        if |text| > 1 {
          assert forall x :: x in text[2..] ==> x in text;
          TextIsFrom(text[2..], false, c);
          StatementOfHead(Cell(text[1], false), CaretPass(text[2..], false), c);
        }
      } else {
        TextIsFrom(text[1..], text[0] == '\"', c);
        StatementOfHead(Cell(text[0], true), CaretPass(text[1..], text[0] == '\"'), c);
      }
    }
  }

  lemma StatementOfHead(cell: Cell, more: seq<Cell>, c: char)
    requires cell.ch != c && c !in Text(Statement(more))
    ensures c !in Text(Statement([cell] + more))
  {
    assert ([cell] + more)[1..] == more;
    if !Stops(cell) {
      assert Statement([cell] + more)[1..] == Statement(more);
    }
  }

  /** The argv rules make no character up but a quote or a backslash. */
  lemma {:induction false} ArgvIsFrom(s: string, inArg: bool, inQuotes: bool, cur: string, c: char)
    requires c !in s && c !in cur && c != '\\' && c != '\"'
    ensures !Among(Argv(s, inArg, inQuotes, cur), c)
    decreases |s|
  {
    if s != [] {
      var n := LeadingSlashes(s);
      SuffixLacks(s, 1, c);
      if !inQuotes && IsBlank(s[0]) {
        ArgvIsFrom(s[1..], false, false, [], c);
        AmongSkips(if inArg then [cur] else [], Argv(s[1..], false, false, []), c);
      } else if n > 0 {
        SuffixLacks(s, n, c);
        if n < |s| && s[n] == '\"' {
          SuffixLacks(s, n + 1, c);
          ArgvIsFrom(s[n..], true, inQuotes, cur + Slashes(n / 2), c);
          ArgvIsFrom(s[n + 1..], true, inQuotes, cur + Slashes(n / 2) + ['\"'], c);
        } else {
          ArgvIsFrom(s[n..], true, inQuotes, cur + Slashes(n), c);
        }
      } else if s[0] == '\"' {
        ArgvIsFrom(s[1..], true, !inQuotes, cur, c);
        if |s| > 1 {
          SuffixLacks(s, 2, c);
          ArgvIsFrom(s[2..], true, true, cur + ['\"'], c);
        }
      } else {
        ArgvIsFrom(s[1..], true, inQuotes, cur + [s[0]], c);
      }
    }
  }

  lemma SuffixLacks(s: string, n: nat, c: char)
    requires n <= |s| && c !in s
    ensures c !in s[n..]
  {
  }

  lemma AmongSkips(a: seq<string>, b: seq<string>, c: char)
    requires !Among(a, c) && !Among(b, c)
    ensures !Among(a + b, c)
  {
    forall i | 0 <= i < |a + b|
      ensures c !in (a + b)[i]
    {
      assert (a + b)[i] == if i < |a| then a[i] else b[i - |a|];
    }
  }

  /** A batch file whose name holds something loose is not the command word that is found. */
  lemma {:induction false} CommandIsCut(text: string, more: seq<Cell>, c: char)
    requires c in text && Unguarded(c)
    ensures |Command(Statement(Cells(text) + more))| < |text|
  {
    var cells := Cells(text) + more;
    assert cells[0] == Cell(text[0], !CaretChar(text[0]));
    assert cells[1..] == Cells(text[1..]) + more;
    GuardsTheRest(text[0]);
    if !Unguarded(text[0]) {
      assert text == [text[0]] + text[1..];
      CommandIsCut(text[1..], more, c);
      if !Stops(cells[0]) {
        assert Statement(cells)[1..] == Statement(cells[1..]);
      }
    }
  }

  lemma {:induction false} TextLength(cells: seq<Cell>)
    ensures |Text(cells)| == |cells|
  {
    if cells != [] {
      TextLength(cells[1..]);
    }
  }

  // ---------------------------------------------------------------- the round trip

  /** `/s`: the first and last quote of the `/c` argument are dropped. */
  function StripOuterQuotes(argument: string): string {
    if |argument| >= 2 then argument[1..|argument| - 1] else argument
  }

  /** The one command of a line, after its caret pass. */
  function Passed(line: string): seq<Cell> {
    Statement(CaretPass(line, false))
  }

  /** What the started program gets: one pass, a second one through a shim, then argv. */
  function ReadBack(argument: string, twice: bool): seq<string> {
    var tail := Text(Tail(Passed(StripOuterQuotes(argument))));
    ParseArguments(if twice then Text(Passed(tail)) else tail)
  }

  function Argument(batch: string, args: seq<string>): string {
    ['\"'] + Line(batch, args, NpmBinCmd(batch)) + ['\"']
  }

  /** No line feed anywhere, and no tab or equals sign in the name of the batch file. */
  predicate Carried(batch: string, args: seq<string>) {
    (forall c :: c in batch ==> !Unguarded(c)) && !Among(args, '\n')
  }

  lemma TailOfLine(batch: string, args: seq<string>, twice: bool)
    requires forall c :: c in batch ==> !Unguarded(c)
    ensures var cells := CaretPass(Line(batch, args, twice), false);
            Text(Command(cells)) == batch && Text(Tail(cells)) == Joined(args, twice)
  {
    PassOfLine(batch, args, twice);
    var tokens := TokenCells(args, twice);
    SplitAtFirstSeparator(batch, tokens);
    TextOfCells(batch);
    if args != [] {
      TextOfTokens(args, twice);
    }
  }

  lemma StripsToLine(batch: string, args: seq<string>)
    ensures StripOuterQuotes(Argument(batch, args)) == Line(batch, args, NpmBinCmd(batch))
  {
  }

  lemma CarriedRoundTrip(batch: string, args: seq<string>)
    requires Carried(batch, args)
    ensures var argument := Argument(batch, args);
            && Text(Command(Passed(StripOuterQuotes(argument)))) == batch
            && ReadBack(argument, NpmBinCmd(batch)) == args
  {
    var twice := NpmBinCmd(batch);
    StripsToLine(batch, args);
    LineIsOneCommand(batch, args, twice);
    TailOfLine(batch, args, twice);
    SecondLineIsOneCommand(args);
    SecondPass(args);
    ArgvReadsAll(args);
  }

  lemma CutCommandDiffers(batch: string, args: seq<string>, c: char)
    requires c in batch && Unguarded(c)
    ensures Text(Command(Passed(StripOuterQuotes(Argument(batch, args))))) != batch
  {
    var twice := NpmBinCmd(batch);
    StripsToLine(batch, args);
    PassOfLine(batch, args, twice);
    CommandIsCut(batch, TokenCells(args, twice), c);
    TextLength(Command(Passed(Line(batch, args, twice))));
  }

  lemma BrokenArgumentsDiffer(batch: string, args: seq<string>)
    requires Among(args, '\n')
    ensures ReadBack(Argument(batch, args), NpmBinCmd(batch)) != args
  {
    var twice := NpmBinCmd(batch);
    StripsToLine(batch, args);
    PassOfLine(batch, args, twice);
    var cells := Cells(batch) + TokenCells(args, twice);
    CellsBreaks(batch);
    TokenBreaks(args, twice);
    assert BreaksAreActive(cells);
    StatementLacksBreak(cells);
    var tail := Text(Tail(Statement(cells)));
    TextIsFrom(tail, false, '\n');
    ArgvIsFrom(if twice then Text(Passed(tail)) else tail, false, false, [], '\n');
  }

  /**
    * For every batch file and every argument list: the command cmd.exe runs has the batch file as
    * its command word and gives back exactly the arguments if and only if no line feed is in any
    * of them and no tab or equals sign in the name of the batch file.
    */
  lemma CommandLineRoundTrip(batch: string, args: seq<string>)
    ensures var argument := Argument(batch, args);
            && Text(Command(Passed(StripOuterQuotes(argument)))) == batch
            && ReadBack(argument, NpmBinCmd(batch)) == args
            <==> Carried(batch, args)
  {
    if Carried(batch, args) {
      CarriedRoundTrip(batch, args);
    } else if Among(args, '\n') {
      BrokenArgumentsDiffer(batch, args);
    } else {
      var c :| c in batch && Unguarded(c);
      CutCommandDiffers(batch, args, c);
    }
  }

  /**
    * What is active on the line, for every batch file and argument list. Of the characters the
    * printer lists only the spaces between the pieces are, in each pass; and what cmd.exe acts on
    * is those spaces and the tabs, equals signs and line feeds of the pieces.
    */
  lemma OnlySeparatorsAreActive(batch: string, args: seq<string>)
    ensures var twice := NpmBinCmd(batch);
            var first := CaretPass(Line(batch, args, twice), false);
            var second := CaretPass(Joined(args, true), false);
            && ActiveMetas(first) == Spaces(|args|) && Active(first) == Loose(batch) + LooseOfArgs(args)
            && ActiveMetas(second) == Spaces(if args == [] then 0 else |args| - 1)
            && Active(second) == LooseJoined(args)
  {
    var twice := NpmBinCmd(batch);
    PassOfLine(batch, args, twice);
    ActiveMetasOfCells(batch, TokenCells(args, twice));
    ActiveMetasOfTokens(args, twice);
    ActiveOfLine(batch, args, twice);
    SecondPass(args);
    SecondPassActive(args);
  }

  /** The printer's list. */
  lemma CaretCharsAre(c: char)
    ensures CaretChar(c) <==> c in "()[]%!^\"`<>&|;, *?"
  {
  }
}

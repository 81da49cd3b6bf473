// How a POSIX shell cuts a line into words and removes the quotes (sections 2.2 and 2.3 of
// the POSIX.1-2017 Shell Command Language), and what shlex.quote, shlex.join and quote_path
// make of it.
module ShellWords {
  import opened Wrappers

  // One character of a word, and whether it was quoted.
  datatype QChar = QChar(c: char, quoted: bool)

  type Word = seq<QChar>

  datatype Mode = Bare | Escaped | Single | Double | DoubleEscaped

  // The scanner after part of a line: the finished words and the one being read. Beyond: the
  // line has something other than plain words, such as an operator, an expansion or a comment.
  datatype Scanner = Scanner(mode: Mode, words: seq<Word>, open: Option<Word>) | Beyond

  predicate Blank(c: char) { c == ' ' || c == '\t' }

  // Outside quotes these start an operator or an expansion, or end the command.
  predicate Operator(c: char) {
    c == '|' || c == '&' || c == ';' || c == '<' || c == '>' || c == '(' || c == ')' || c == '$' || c == '`' || c == '\n'
  }

  // Characters that do not stand for themselves outside quotes.
  predicate Special(c: char) {
    Blank(c) || Operator(c) || c == '\'' || c == '"' || c == '\\'
  }

  // Section 2.2.3: the characters a backslash escapes within double quotes.
  predicate EscapedInDouble(c: char) {
    c == '$' || c == '`' || c == '"' || c == '\\' || c == '\n'
  }

  function Current(st: Scanner): Word
    requires st.Scanner?
  {
    if st.open.Some? then st.open.value else []
  }

  function Add(st: Scanner, w: Word, mode: Mode): Scanner
    requires st.Scanner?
  {
    Scanner(mode, st.words, Some(Current(st) + w))
  }

  // The words so far, the one being read included.
  function Closed(st: Scanner): seq<Word>
    requires st.Scanner?
  {
    if st.open.Some? then st.words + [st.open.value] else st.words
  }

  function Feed(st: Scanner, c: char): Scanner {
    match st
    case Beyond => Beyond
    case Scanner(Bare, words, open) =>
      if Blank(c) then Scanner(Bare, Closed(st), None)
      else if c == '\'' then Add(st, [], Single)
      else if c == '"' then Add(st, [], Double)
      else if c == '\\' then st.(mode := Escaped)
      else if Operator(c) || (c == '#' && open.None?) then Beyond
      else Add(st, [QChar(c, false)], Bare)
    case Scanner(Escaped, _, _) =>
      if c == '\n' then st.(mode := Bare) else Add(st, [QChar(c, true)], Bare)
    case Scanner(Single, _, _) =>
      if c == '\'' then st.(mode := Bare) else Add(st, [QChar(c, true)], Single)
    case Scanner(Double, _, _) =>
      if c == '"' then st.(mode := Bare)
      else if c == '\\' then st.(mode := DoubleEscaped)
      else if c == '$' || c == '`' then Beyond
      else Add(st, [QChar(c, true)], Double)
    case Scanner(DoubleEscaped, _, _) =>
      if c == '\n' then st.(mode := Double)
      else if EscapedInDouble(c) then Add(st, [QChar(c, true)], Double)
      else Add(st, [QChar('\\', true), QChar(c, true)], Double)
  }

  function FeedAll(st: Scanner, s: string): Scanner
    decreases |s|
  {
    if s == "" then st else FeedAll(Feed(st, s[0]), s[1..])
  }

  // The words of a line; None when it is not made of plain words, or a quote is left open.
  function Words(s: string): Option<seq<Word>> {
    var st := FeedAll(Scanner(Bare, [], None), s);
    if st.Scanner? && st.mode.Bare? then Some(Closed(st)) else None
  }

  // Quote removal.
  function Value(w: Word): (s: string)
    ensures |s| == |w| && forall i | 0 <= i < |w| :: s[i] == w[i].c
  {
    seq(|w|, i requires 0 <= i < |w| => w[i].c)
  }

  function Values(ws: seq<Word>): seq<string> {
    seq(|ws|, i requires 0 <= i < |ws| => Value(ws[i]))
  }

  function Marked(s: string, quoted: bool): Word {
    seq(|s|, i requires 0 <= i < |s| => QChar(s[i], quoted))
  }

  lemma {:induction false} FeedConcat(st: Scanner, a: string, b: string)
    ensures FeedAll(st, a + b) == FeedAll(FeedAll(st, a), b)
    decreases |a|
  {
    if a == "" {
      assert a + b == b;
    } else {
      assert (a + b)[1..] == a[1..] + b;
      FeedConcat(Feed(st, a[0]), a[1..], b);
    }
  }

  lemma FeedOne(st: Scanner, c: char)
    ensures FeedAll(st, [c]) == Feed(st, c)
  {
    assert [c][1..] == "";
  }

  // ---- shlex.quote and shlex.join -------------------------------------------------------

  predicate AsciiWordChar(c: char) {
    'a' <= c <= 'z' || 'A' <= c <= 'Z' || '0' <= c <= '9' || c == '_'
  }

  predicate Safe(c: char) {
    AsciiWordChar(c) || c == '@' || c == '%' || c == '+' || c == '=' || c == ':' || c == ',' || c == '.' || c == '/' || c == '-'
  }

  predicate NeedsQuotes(s: string) {
    s == "" || exists c :: c in s && !Safe(c)
  }

  function Escape(s: string): string {
    if s == "" then "" else (if s[0] == '\'' then "'\"'\"'" else [s[0]]) + Escape(s[1..])
  }

  function Quote(s: string): string {
    if NeedsQuotes(s) then "'" + Escape(s) + "'" else s
  }

  function Join(argv: seq<string>): string {
    JoinParts(seq(|argv|, i requires 0 <= i < |argv| => Quote(argv[i])))
  }

  // " ".join(parts).
  function JoinParts(parts: seq<string>): string {
    if parts == [] then "" else if |parts| == 1 then parts[0] else JoinParts(parts[..|parts| - 1]) + " " + parts[|parts| - 1]
  }

  // Text that, at the start of a word, is read as exactly this word so far.
  ghost predicate Reads(text: string, w: Word) {
    forall words :: FeedAll(Scanner(Bare, words, None), text) == Scanner(Bare, words, Some(w))
  }

  // How shlex.quote writes a single quote inside single quotes.
  lemma QuotedQuoteFeeds(st: Scanner)
    requires st.Scanner? && st.mode.Single? && st.open.Some?
    ensures FeedAll(st, "'\"'\"'") == Add(st, [QChar('\'', true)], Single)
  {
    var w := st.open.value;
    assert w + [] == w && w + [QChar('\'', true)] + [] == w + [QChar('\'', true)];
    var bare, double := st.(mode := Bare), st.(mode := Double);
    var added := Add(double, [QChar('\'', true)], Double);
    assert "'\"'\"'"[1..] == "\"'\"'" && "\"'\"'"[1..] == "'\"'" && "'\"'"[1..] == "\"'" && "\"'"[1..] == "'";
    assert Feed(st, '\'') == bare && Feed(bare, '"') == double && Feed(double, '\'') == added;
    assert Feed(added, '"') == added.(mode := Bare);
    FeedOne(added.(mode := Bare), '\'');
    assert FeedAll(added, "\"'") == Add(st, [QChar('\'', true)], Single);
    assert FeedAll(double, "'\"'") == FeedAll(added, "\"'");
    assert FeedAll(bare, "\"'\"'") == FeedAll(double, "'\"'");
  }

  lemma {:induction false} EscapeFeeds(st: Scanner, s: string)
    requires st.Scanner? && st.mode.Single? && st.open.Some?
    ensures FeedAll(st, Escape(s)) == st.(open := Some(st.open.value + Marked(s, true)))
    decreases |s|
  {
    if s == "" {
      assert st.open.value + [] == st.open.value;
    } else {
      var piece, st' := if s[0] == '\'' then "'\"'\"'" else [s[0]], Add(st, [QChar(s[0], true)], Single);
      FeedConcat(st, piece, Escape(s[1..]));
      assert FeedAll(st, piece) == st' by {
        if s[0] == '\'' {
          QuotedQuoteFeeds(st);
        } else {
          FeedOne(st, s[0]);
        }
      }
      EscapeFeeds(st', s[1..]);
      assert st.open.value + Marked(s, true) == st.open.value + [QChar(s[0], true)] + Marked(s[1..], true);
    }
  }

  lemma {:induction false} PlainFeeds(st: Scanner, s: string)
    requires st.Scanner? && st.mode.Bare? && s != ""
    requires (forall c | c in s :: !Special(c)) && (st.open.None? ==> s[0] != '#')
    ensures FeedAll(st, s) == st.(open := Some(Current(st) + Marked(s, false)))
    decreases |s|
  {
    var st' := Feed(st, s[0]);
    assert s[0] in s;
    assert st' == Add(st, [QChar(s[0], false)], Bare);
    if s[1..] == "" {
      assert Marked(s, false) == [QChar(s[0], false)];
    } else {
      assert forall c :: c in s[1..] ==> c in s;
      PlainFeeds(st', s[1..]);
      assert Current(st) + Marked(s, false) == Current(st) + [QChar(s[0], false)] + Marked(s[1..], false);
    }
  }

  // What shlex.quote returns extends the current word by exactly the text, all of it quoted
  // or all of it not.
  lemma QuoteFeeds(st: Scanner, s: string)
    requires st.Scanner? && st.mode.Bare?
    ensures FeedAll(st, Quote(s)) == st.(open := Some(Current(st) + Marked(s, NeedsQuotes(s))))
  {
    if NeedsQuotes(s) {
      var inside := Add(st, [], Single);
      var closing := inside.(open := Some(inside.open.value + Marked(s, true)));
      FeedConcat(st, "'" + Escape(s), "'");
      FeedConcat(st, "'", Escape(s));
      FeedOne(st, '\'');
      EscapeFeeds(inside, s);
      FeedOne(closing, '\'');
      assert Current(st) + [] == Current(st);
    } else {
      assert forall c | c in s :: Safe(c) && !Special(c);
      assert s[0] in s;
      PlainFeeds(st, s);
    }
  }

  lemma QuoteReads(s: string)
    ensures Reads(Quote(s), Marked(s, NeedsQuotes(s)))
  {
    forall words
      ensures FeedAll(Scanner(Bare, words, None), Quote(s)) == Scanner(Bare, words, Some(Marked(s, NeedsQuotes(s))))
    {
      QuoteFeeds(Scanner(Bare, words, None), s);
      assert [] + Marked(s, NeedsQuotes(s)) == Marked(s, NeedsQuotes(s));
    }
  }

  // A word made of a plain prefix and a quoted value, as in --wrap='...'.
  lemma PrefixedQuoteReads(prefix: string, s: string)
    requires prefix != "" && prefix[0] != '#' && forall c | c in prefix :: !Special(c)
    ensures Reads(prefix + Quote(s), Marked(prefix, false) + Marked(s, NeedsQuotes(s)))
  {
    forall words
      ensures FeedAll(Scanner(Bare, words, None), prefix + Quote(s)) ==
        Scanner(Bare, words, Some(Marked(prefix, false) + Marked(s, NeedsQuotes(s))))
    {
      var st := Scanner(Bare, words, None);
      FeedConcat(st, prefix, Quote(s));
      PlainFeeds(st, prefix);
      assert [] + Marked(prefix, false) == Marked(prefix, false);
      QuoteFeeds(Scanner(Bare, words, Some(Marked(prefix, false))), s);
    }
  }

  lemma PlainReads(s: string)
    requires s != "" && s[0] != '#' && forall c | c in s :: !Special(c)
    ensures Reads(s, Marked(s, false))
  {
    forall words
      ensures FeedAll(Scanner(Bare, words, None), s) == Scanner(Bare, words, Some(Marked(s, false)))
    {
      PlainFeeds(Scanner(Bare, words, None), s);
      assert [] + Marked(s, false) == Marked(s, false);
    }
  }

  lemma {:induction false} JoinedFeeds(parts: seq<string>, ws: seq<Word>)
    requires |parts| == |ws| > 0 && forall i | 0 <= i < |parts| :: Reads(parts[i], ws[i])
    ensures FeedAll(Scanner(Bare, [], None), JoinParts(parts)) == Scanner(Bare, ws[..|ws| - 1], Some(ws[|ws| - 1]))
  {
    var n := |parts| - 1;
    var start := Scanner(Bare, [], None);
    assert Reads(parts[n], ws[n]);
    assert FeedAll(Scanner(Bare, ws[..n], None), parts[n]) == Scanner(Bare, ws[..n], Some(ws[n]));
    if n > 0 {
      JoinedFeeds(parts[..n], ws[..n]);
      var st := Scanner(Bare, ws[..n][..n - 1], Some(ws[n - 1]));
      FeedConcat(start, JoinParts(parts[..n]) + " ", parts[n]);
      FeedConcat(start, JoinParts(parts[..n]), " ");
      FeedOne(st, ' ');
      assert ws[..n][..n - 1] + [ws[n - 1]] == ws[..n];
    }
  }

  // Parts that each read as a word, joined by blanks, are those words.
  lemma JoinedReads(parts: seq<string>, ws: seq<Word>)
    requires |parts| == |ws| && forall i | 0 <= i < |parts| :: Reads(parts[i], ws[i])
    ensures Words(JoinParts(parts)) == Some(ws)
  {
    if parts != [] {
      JoinedFeeds(parts, ws);
      assert ws[..|ws| - 1] + [ws[|ws| - 1]] == ws;
    }
  }

  function ArgvWords(argv: seq<string>): (ws: seq<Word>)
    ensures |ws| == |argv|
  {
    seq(|argv|, i requires 0 <= i < |argv| => Marked(argv[i], NeedsQuotes(argv[i])))
  }

  // shlex.join is undone by the shell, for every list of strings.
  lemma JoinRoundTrip(argv: seq<string>)
    ensures Words(Join(argv)) == Some(ArgvWords(argv)) && Values(ArgvWords(argv)) == argv
  {
    var parts := seq(|argv|, i requires 0 <= i < |argv| => Quote(argv[i]));
    forall i | 0 <= i < |argv|
      ensures Reads(parts[i], ArgvWords(argv)[i]) && Value(ArgvWords(argv)[i]) == argv[i]
    {
      QuoteReads(argv[i]);
    }
    JoinedReads(parts, ArgvWords(argv));
  }

  // ---- Unquoted text --------------------------------------------------------------------

  function Total(ws: seq<Word>): nat {
    if ws == [] then 0 else Total(ws[..|ws| - 1]) + |ws[|ws| - 1]|
  }

  // The characters a scanner has kept.
  function Kept(st: Scanner): nat {
    match st
    case Beyond => 0
    case Scanner(mode, words, open) => Total(words) + |Current(st)| + if mode.DoubleEscaped? then 1 else 0
  }

  lemma FeedKeepsAtMostOne(st: Scanner, c: char)
    ensures Kept(Feed(st, c)) <= Kept(st) + 1
    ensures st.Beyond? || (st.mode.Bare? && Special(c)) ==> Kept(Feed(st, c)) <= Kept(st)
  {
    if st.Scanner? && st.mode.Bare? && Blank(c) && st.open.Some? {
      assert (st.words + [st.open.value])[..|st.words|] == st.words;
    }
  }

  lemma {:induction false} FeedAllKeeps(st: Scanner, s: string)
    ensures Kept(FeedAll(st, s)) <= Kept(st) + |s|
    ensures st.Scanner? && st.mode.Bare? && Kept(FeedAll(st, s)) == Kept(st) + |s| ==> forall c | c in s :: !Special(c)
    decreases |s|
  {
    if s != "" {
      FeedKeepsAtMostOne(st, s[0]);
      FeedAllKeeps(Feed(st, s[0]), s[1..]);
      assert forall c :: c in s <==> c == s[0] || c in s[1..];
      if st.Scanner? && st.mode.Bare? && !Special(s[0]) && Feed(st, s[0]).Beyond? {
        FeedAllKeepsNothing(s[1..]);
      }
    }
  }

  lemma {:induction false} FeedAllKeepsNothing(s: string)
    ensures FeedAll(Beyond, s) == Beyond
  {
    if s != "" {
      FeedAllKeepsNothing(s[1..]);
    }
  }

  lemma OneWordKept(st: Scanner, w: Word)
    requires st.Scanner? && st.mode.Bare? && w != []
    requires Closed(st) == [w]
    ensures Kept(st) == |w|
  {
    if st.open.Some? {
      assert |st.words + [st.open.value]| == 1;
      assert st.words == [];
      assert (st.words + [st.open.value])[0] == st.open.value;
    } else {
      assert [w][..0] == [] && Total([w]) == |w| && st.words == [w];
    }
  }

  // Text put on the line as it is, after an option name, arrives as it is exactly when it has
  // no special character.
  lemma RawTextIff(option: string, text: string)
    requires option != "" && option[0] != '#' && forall c | c in option :: !Special(c)
    ensures Words(option + text) == Some([Marked(option + text, false)]) <==> forall c | c in text :: !Special(c)
  {
    var s, start := option + text, Scanner(Bare, [], None);
    if forall c | c in text :: !Special(c) {
      PlainReads(s);
      assert FeedAll(start, s) == Scanner(Bare, [], Some(Marked(s, false)));
      assert [] + [Marked(s, false)] == [Marked(s, false)];
    }
    if Words(s) == Some([Marked(s, false)]) {
      var st := FeedAll(start, s);
      OneWordKept(st, Marked(s, false));
      FeedAllKeeps(start, s);
      forall c | c in text
        ensures !Special(c)
      {
        assert c in s;
      }
    }
  }

  // ---- quote_path -----------------------------------------------------------------------

  predicate LoginChar(c: char) {
    'a' <= c <= 'z' || 'A' <= c <= 'Z' || '0' <= c <= '9' || c == '.' || c == '_' || c == '-'
  }

  function LoginLength(s: string): (n: nat)
    ensures n <= |s| && (forall i | 0 <= i < n :: LoginChar(s[i])) && (n < |s| ==> !LoginChar(s[n]))
  {
    if s == "" || !LoginChar(s[0]) then 0 else 1 + LoginLength(s[1..])
  }

  function QuotePath(s: string): string {
    if s == "" || s[0] != '~' then Quote(s)
    else
      var n := 1 + LoginLength(s[1..]);
      var rest := s[n..];
      if rest == "" || rest == "/" then s
      else if rest[0] != '/' then Quote(s)
      else s[..n] + "/" + Quote(rest[1..])
  }

  // A tilde, a possibly empty login name, then the end or a slash.
  predicate StartsAtHome(s: string) {
    s != "" && s[0] == '~' &&
    var n := 1 + LoginLength(s[1..]);
    n == |s| || s[n] == '/'
  }

  // Section 2.6.1: a tilde prefix is an unquoted tilde at the start of the word and what
  // follows up to the first unquoted slash, and it is expanded when none of it is quoted.
  function SlashAt(w: Word): (n: nat)
    ensures n <= |w| && (n < |w| ==> w[n] == QChar('/', false))
    ensures forall i | 0 <= i < n :: w[i] != QChar('/', false)
  {
    if w == [] || w[0] == QChar('/', false) then 0 else 1 + SlashAt(w[1..])
  }

  predicate LiveTilde(w: Word) {
    w != [] && w[0] == QChar('~', false) && forall i | 0 <= i < SlashAt(w) :: !w[i].quoted
  }

  // The word quote_path stands for.
  function PathWord(s: string): Word {
    if !StartsAtHome(s) then Marked(s, NeedsQuotes(s))
    else
      var n := 1 + LoginLength(s[1..]);
      if n + 1 >= |s| then Marked(s, false)
      else Marked(s[..n + 1], false) + Marked(s[n + 1..], NeedsQuotes(s[n + 1..]))
  }

  lemma PathReads(s: string)
    ensures Reads(QuotePath(s), PathWord(s))
  {
    if !StartsAtHome(s) {
      QuoteReads(s);
      assert QuotePath(s) == Quote(s);
    } else {
      var n := 1 + LoginLength(s[1..]);
      HomePrefixIsPlain(s);
      if n + 1 >= |s| {
        assert s[..if n < |s| then n + 1 else n] == s;
        PlainReads(s);
      } else {
        assert s[n..][1..] == s[n + 1..] && s[..n] + "/" == s[..n + 1];
        PrefixedQuoteReads(s[..n + 1], s[n + 1..]);
      }
    }
  }

  lemma HomePrefixIsPlain(s: string)
    requires StartsAtHome(s)
    ensures var n := 1 + LoginLength(s[1..]); forall i | 0 <= i < |s| && i <= n :: !Special(s[i])
  {
    var n := 1 + LoginLength(s[1..]);
    forall i | 0 < i < n
      ensures LoginChar(s[i])
    {
      assert s[i] == s[1..][i - 1];
    }
  }

  lemma UnquotedPrefixIsLive(w: Word, n: nat)
    requires 0 < n <= |w| && w[0] == QChar('~', false) && (n < |w| ==> w[n] == QChar('/', false))
    requires forall i | 0 <= i < n :: !w[i].quoted
    ensures LiveTilde(w)
  {
    assert SlashAt(w) <= n;
  }

  lemma MarkedFrontIsLive(front: string, back: string, quoted: bool)
    requires |front| >= 2 && front[0] == '~' && front[|front| - 1] == '/'
    ensures LiveTilde(Marked(front, false) + Marked(back, quoted))
    ensures Value(Marked(front, false) + Marked(back, quoted)) == front + back
  {
    UnquotedPrefixIsLive(Marked(front, false) + Marked(back, quoted), |front| - 1);
  }

  lemma HomeTildeIsLive(s: string)
    requires StartsAtHome(s)
    ensures LiveTilde(PathWord(s)) && Value(PathWord(s)) == s
  {
    var n := 1 + LoginLength(s[1..]);
    if n + 1 >= |s| {
      UnquotedPrefixIsLive(Marked(s, false), n);
    } else {
      var front, back := s[..n + 1], s[n + 1..];
      MarkedFrontIsLive(front, back, NeedsQuotes(back));
      assert front + back == s;
    }
  }

  // Whatever the path, the shell reads the result as one word with the path as its value,
  // and expands its tilde exactly when the path starts with a home directory.
  lemma QuotePathIsOneWord(s: string)
    ensures Words(QuotePath(s)) == Some([PathWord(s)]) && Value(PathWord(s)) == s
    ensures LiveTilde(PathWord(s)) <==> StartsAtHome(s)
  {
    PathReads(s);
    JoinedReads([QuotePath(s)], [PathWord(s)]);
    if StartsAtHome(s) {
      HomeTildeIsLive(s);
    } else if s != "" && s[0] == '~' {
      assert s[0] in s && !Safe(s[0]);
      assert PathWord(s)[0].quoted;
    }
  }
}

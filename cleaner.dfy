/** The cleaning stage: `clean_text` and the three per-source assemblers that
    turn raw SEC filings, news JSON and market CSV into `*_clean.txt` files. */
module Cleaner {
  import opened Wrappers
  import opened Strings
  import opened Paths

  /** Python's Unicode whitespace: what `\s` matches in a str pattern and
      what `str.strip()` removes. */
  predicate IsSpace(c: char)
  {
    || c == ' '
    || ('\t' <= c <= '\r')
    || ('\U{1C}' <= c <= '\U{1F}')
    || c == '\U{85}' || c == '\U{A0}' || c == '\U{1680}'
    || ('\U{2000}' <= c <= '\U{200A}')
    || c == '\U{2028}' || c == '\U{2029}' || c == '\U{202F}' || c == '\U{205F}' || c == '\U{3000}'
  }

  /** The characters the class `[A-Za-z0-9.,$%\-–’'"() ]` admits. */
  predicate Allowed(c: char)
  {
    || ('A' <= c <= 'Z') || ('a' <= c <= 'z') || ('0' <= c <= '9')
    || c == '.' || c == ',' || c == '$' || c == '%' || c == '-'
    || c == '\U{2013}' || c == '\U{2019}'
    || c == '\'' || c == '"' || c == '(' || c == ')' || c == ' '
  }

  /** Length of the leading whitespace run of `s`. */
  function LeadingSpaces(s: string): (n: nat)
    ensures n <= |s|
    ensures forall i | 0 <= i < n :: IsSpace(s[i])
    ensures n == |s| || !IsSpace(s[n])
  {
    if s != [] && IsSpace(s[0]) then
      var n := 1 + LeadingSpaces(s[1..]);
      assert forall i | 1 <= i < n :: s[i] == s[1..][i - 1];
      n
    else 0
  }

  /** Length of the trailing whitespace run of `s`. */
  function TrailingSpaces(s: string): (n: nat)
    ensures n <= |s|
    ensures forall i | |s| - n <= i < |s| :: IsSpace(s[i])
    ensures n == |s| || !IsSpace(s[|s| - n - 1])
  {
    if s != [] && IsSpace(s[|s| - 1]) then
      var n := 1 + TrailingSpaces(s[..|s| - 1]);
      assert forall i | |s| - n <= i < |s| - 1 :: s[i] == s[..|s| - 1][i];
      n
    else 0
  }

  /** The leading whitespace run of `s` removed. */
  function SkipSpaces(s: string): string
  {
    s[LeadingSpaces(s)..]
  }

  /** `re.sub(r"\s+", " ", s)`: every maximal whitespace run becomes one space. */
  function CollapseSpaces(s: string): (r: string)
    ensures |r| <= |s|
    decreases |s|
  {
    if s == [] then []
    else if IsSpace(s[0]) then " " + CollapseSpaces(SkipSpaces(s[1..]))
    else [s[0]] + CollapseSpaces(s[1..])
  }

  /** The collapsed text's only whitespace is the plain space, no two whitespace
      characters are adjacent, and it starts with whitespace exactly when the input does. */
  lemma {:induction false} CollapseSpacesSound(s: string)
    ensures var r := CollapseSpaces(s);
            && (forall i | 0 <= i < |r| :: IsSpace(r[i]) ==> r[i] == ' ')
            && (forall i, j | 0 <= i < j < |r| && j == i + 1 :: IsSpace(r[i]) ==> !IsSpace(r[j]))
            && (s != [] ==> r != [] && (IsSpace(r[0]) <==> IsSpace(s[0])))
    decreases |s|
  {
    if s != [] {
      if IsSpace(s[0]) {
        CollapseSpacesSound(SkipSpaces(s[1..]));
      } else {
        CollapseSpacesSound(s[1..]);
      }
    }
  }

  /** `re.sub(r"[^...]", "", s)`: the disallowed characters deleted. */
  function KeepAllowed(s: string): (r: string)
    ensures forall i | 0 <= i < |r| :: Allowed(r[i])
    ensures IsSubsequence(r, s)
  {
    if s == [] then []
    else if Allowed(s[0]) then
      assert s[0] == s[0];
      [s[0]] + KeepAllowed(s[1..])
    else
      var r := KeepAllowed(s[1..]);
      SubsequenceCons(r, s);
      r
  }

  /** `s.strip()`: the slice of `s` between its leading and its trailing whitespace run. */
  function Strip(s: string): (r: string)
    ensures r == [] || (!IsSpace(r[0]) && !IsSpace(r[|r| - 1]))
    ensures var lo := LeadingSpaces(s);
            && lo + |r| <= |s| && r == s[lo..lo + |r|]
            && forall i | lo + |r| <= i < |s| :: IsSpace(s[i])
  {
    var lo := LeadingSpaces(s);
    var t := s[lo..];
    var hi := TrailingSpaces(t);
    var r := t[..|t| - hi];
    assert r == s[lo..lo + |r|];
    forall i | lo + |r| <= i < |s|
      ensures IsSpace(s[i])
    {
      assert s[i] == t[i - lo];
    }
    r
  }

  /** `clean_text`: collapse whitespace, delete disallowed characters, strip. */
  function CleanText(s: string): string
  {
    Strip(KeepAllowed(CollapseSpaces(s)))
  }

  /** The cleaned text has only allowed characters, no whitespace but the plain space
      and none at either end; it is no longer than the input and keeps the order of
      the whitespace-collapsed input. */
  lemma CleanTextSound(s: string)
    ensures var r := CleanText(s);
            && (forall i | 0 <= i < |r| :: Allowed(r[i]))
            && (forall i | 0 <= i < |r| :: IsSpace(r[i]) ==> r[i] == ' ')
            && (r == [] || (r[0] != ' ' && r[|r| - 1] != ' '))
            && |r| <= |s|
            && IsSubsequence(r, CollapseSpaces(s))
  {
    StripChars(KeepAllowed(CollapseSpaces(s)));
    CleanTextOrder(s);
  }

  /** Stripping text of allowed characters leaves allowed characters, spaces as its
      only whitespace, and no space at either end. */
  lemma StripChars(kept: string)
    requires forall i | 0 <= i < |kept| :: Allowed(kept[i])
    ensures var r := Strip(kept);
            && (forall i | 0 <= i < |r| :: Allowed(r[i]) && (IsSpace(r[i]) ==> r[i] == ' '))
            && (r == [] || (r[0] != ' ' && r[|r| - 1] != ' '))
  {
    var r := Strip(kept);
    var lo := LeadingSpaces(kept);
    forall i | 0 <= i < |r|
      ensures Allowed(r[i]) && (IsSpace(r[i]) ==> r[i] == ' ')
    {
      assert r[i] == kept[lo + i];
      AllowedSpace(r[i]);
    }
  }

  /** The cleaned text keeps the order of the whitespace-collapsed input and is no
      longer than the input. */
  lemma CleanTextOrder(s: string)
    ensures |CleanText(s)| <= |s|
    ensures IsSubsequence(CleanText(s), CollapseSpaces(s))
  {
    var collapsed := CollapseSpaces(s);
    StripOrder(KeepAllowed(collapsed), collapsed);
  }

  /** Stripping a subsequence of `c` leaves a subsequence of `c`. */
  lemma StripOrder(kept: string, c: string)
    requires IsSubsequence(kept, c)
    ensures IsSubsequence(Strip(kept), c) && |Strip(kept)| <= |c|
  {
    var lo := LeadingSpaces(kept);
    SliceOfSubsequence(kept, c, lo, lo + |Strip(kept)|);
  }

  /** The only whitespace character the allowed class admits is the plain space. */
  lemma AllowedSpace(c: char)
    requires Allowed(c)
    ensures IsSpace(c) ==> c == ' '
  {
  }

  /** The characters of `s` that are not whitespace, in order. */
  function NonSpace(s: string): string
  {
    if s == [] then [] else (if IsSpace(s[0]) then [] else [s[0]]) + NonSpace(s[1..])
  }

  lemma {:induction false} NonSpaceAppend(a: string, b: string)
    ensures NonSpace(a + b) == NonSpace(a) + NonSpace(b)
  {
    if a == [] {
      assert a + b == b;
    } else {
      assert (a + b)[0] == a[0];
      assert (a + b)[1..] == a[1..] + b;
      NonSpaceAppend(a[1..], b);
    }
  }

  lemma {:induction false} NonSpaceSkip(s: string, n: nat)
    requires n <= |s| && forall i | 0 <= i < n :: IsSpace(s[i])
    ensures NonSpace(s[n..]) == NonSpace(s)
  {
    if n > 0 {
      assert s[1..][n - 1..] == s[n..];
      NonSpaceSkip(s[1..], n - 1);
    }
  }

  /** Collapsing only rewrites whitespace: every other character survives, in order. */
  lemma {:induction false} CollapseKeepsText(s: string)
    ensures NonSpace(CollapseSpaces(s)) == NonSpace(s)
    decreases |s|
  {
    if s != [] {
      if IsSpace(s[0]) {
        var t := SkipSpaces(s[1..]);
        CollapseKeepsText(t);
        NonSpaceSkip(s[1..], LeadingSpaces(s[1..]));
        NonSpaceAppend(" ", CollapseSpaces(t));
      } else {
        CollapseKeepsText(s[1..]);
        NonSpaceAppend([s[0]], CollapseSpaces(s[1..]));
      }
    }
  }

  /** The leading whitespace of a whitespace run followed by a non-space (or nothing)
      is the whole run. */
  lemma {:induction false} LeadingSpacesRun(w: string, y: string)
    requires forall i | 0 <= i < |w| :: IsSpace(w[i])
    requires y == [] || !IsSpace(y[0])
    ensures LeadingSpaces(w + y) == |w|
    decreases |w|
  {
    if w == [] {
      assert w + y == y;
    } else {
      SliceAppend(w, y, 1);
      SliceAppend(w, y, 0);
      LeadingSpacesRun(w[1..], y);
    }
  }

  /** The leading whitespace of `a + z` lies inside `a` when `a` ends in a non-space. */
  lemma {:induction false} LeadingSpacesAppend(a: string, z: string)
    requires a != [] && !IsSpace(a[|a| - 1])
    ensures LeadingSpaces(a) < |a| && LeadingSpaces(a + z) == LeadingSpaces(a)
    decreases |a|
  {
    SliceAppend(a, z, 0);
    if IsSpace(a[0]) {
      assert a[1..][|a| - 2] == a[|a| - 1];
      SliceAppend(a, z, 1);
      LeadingSpacesAppend(a[1..], z);
    }
  }

  /** Skipping the leading whitespace of `a + z` stays inside `a` when `a` ends in a non-space. */
  lemma SkipSpacesAppend(a: string, z: string)
    requires a != [] && !IsSpace(a[|a| - 1])
    ensures LeadingSpaces(a) < |a|
    ensures SkipSpaces(a + z) == SkipSpaces(a) + z
  {
    LeadingSpacesAppend(a, z);
    SliceAppend(a, z, LeadingSpaces(a));
  }

  /** Collapsing distributes over a cut made right after a non-space character. */
  lemma {:induction false} CollapseAppend(x: string, z: string)
    requires x == [] || !IsSpace(x[|x| - 1])
    ensures CollapseSpaces(x + z) == CollapseSpaces(x) + CollapseSpaces(z)
    decreases |x|
  {
    if x == [] {
      assert x + z == z;
    } else {
      SliceAppend(x, z, 1);
      SliceAppend(x, z, 0);
      var t := x[1..];
      if IsSpace(x[0]) {
        assert t != [] && t[|t| - 1] == x[|x| - 1];
        SkipSpacesAppend(t, z);
        var a := SkipSpaces(t);
        assert a != [] && a[|a| - 1] == x[|x| - 1];
        CollapseAppend(a, z);
        AppendRegroup(" ", CollapseSpaces(a), CollapseSpaces(z));
      } else {
        assert t == [] || t[|t| - 1] == x[|x| - 1];
        CollapseAppend(t, z);
        AppendRegroup([x[0]], CollapseSpaces(t), CollapseSpaces(z));
      }
    }
  }

  /** `re.sub(r"\s+", " ", s)` pinned down: a maximal whitespace run, between two
      non-space characters or an end of the text, becomes exactly one space in its place. */
  lemma CollapseRun(x: string, w: string, y: string)
    requires w != [] && forall i | 0 <= i < |w| :: IsSpace(w[i])
    requires x == [] || !IsSpace(x[|x| - 1])
    requires y == [] || !IsSpace(y[0])
    ensures CollapseSpaces(x + w + y) == CollapseSpaces(x) + " " + CollapseSpaces(y)
  {
    SliceAppend(w, y, 1);
    LeadingSpacesRun(w[1..], y);
    SliceAppend(w[1..], y, |w| - 1);
    AppendRegroup(x, w, y);
    CollapseAppend(x, w + y);
    AppendRegroup(CollapseSpaces(x), " ", CollapseSpaces(y));
  }

  /** The filter deletes exactly the disallowed characters: an allowed character
      occurs as often as before, a disallowed one not at all. */
  lemma {:induction false} KeepAllowedCounts(s: string, c: char)
    ensures Count(c, KeepAllowed(s)) == if Allowed(c) then Count(c, s) else 0
  {
    if s != [] {
      KeepAllowedCounts(s[1..], c);
      if Allowed(s[0]) {
        assert KeepAllowed(s) == [s[0]] + KeepAllowed(s[1..]);
        CountAppend(c, [s[0]], KeepAllowed(s[1..]));
      }
    }
  }

  /** `clean_text` is not idempotent: deleting `!` between two spaces leaves
      a double space, which a second pass collapses. */
  lemma CleanTextNotIdempotent()
    ensures CleanText("a ! b") == "a  b"
    ensures CleanText(CleanText("a ! b")) == "a b"
  {
    CleanFirstPass();
    CleanSecondPass();
  }

  lemma CleanFirstPass()
    ensures CleanText("a ! b") == "a  b"
  {
    CollapseFirst();
    KeepFirst();
    StripUnpadded("a  b");
  }

  lemma CleanSecondPass()
    ensures CleanText("a  b") == "a b"
  {
    CollapseSecond();
    assert KeepAllowed("a b") == "a b" by {
      assert Allowed('a') && Allowed(' ') && Allowed('b');
      assert KeepAllowed("b") == "b";
      assert KeepAllowed(" b") == " b";
    }
    StripUnpadded("a b");
  }

  lemma CollapseFirst()
    ensures CollapseSpaces("a ! b") == "a ! b"
  {
    assert !IsSpace('a') && !IsSpace('!') && !IsSpace('b') && IsSpace(' ');
    assert LeadingSpaces("b") == 0;
    assert CollapseSpaces("b") == "b";
    assert CollapseSpaces(" b") == " b";
    assert CollapseSpaces("! b") == "! b";
    assert CollapseSpaces(" ! b") == " ! b";
  }

  lemma KeepFirst()
    ensures KeepAllowed("a ! b") == "a  b"
  {
    assert Allowed('a') && !Allowed('!') && Allowed('b') && Allowed(' ');
    assert KeepAllowed("b") == "b";
    assert KeepAllowed(" b") == " b";
    assert KeepAllowed("! b") == " b";
    assert KeepAllowed(" ! b") == "  b";
  }

  lemma CollapseSecond()
    ensures CollapseSpaces("a  b") == "a b"
  {
    assert !IsSpace('a') && !IsSpace('b') && IsSpace(' ');
    assert LeadingSpaces("b") == 0;
    assert LeadingSpaces(" b") == 1;
    assert CollapseSpaces("b") == "b";
    assert CollapseSpaces("  b") == " b";
  }

  /** A text with no surrounding whitespace is its own strip. */
  lemma StripUnpadded(s: string)
    requires s != [] && !IsSpace(s[0]) && !IsSpace(s[|s| - 1])
    ensures Strip(s) == s
  {
    assert LeadingSpaces(s) == 0;
    assert TrailingSpaces(s) == 0;
  }

  /** A cleaned text holds no newline, so it never breaks a `"\n\n"` separator. */
  lemma {:induction false} CleanTextHasNoNewline(s: string)
    ensures Count('\n', CleanText(s)) == 0
  {
    CleanTextSound(s);
    NoOccurrence('\n', CleanText(s));
  }

  lemma {:induction false} NoOccurrence(c: char, s: string)
    requires forall i | 0 <= i < |s| :: s[i] != c
    ensures Count(c, s) == 0
  {
    if s != [] {
      NoOccurrence(c, s[1..]);
    }
  }

  // ---------------------------------------------------------------------
  // Source assemblers
  // ---------------------------------------------------------------------

  /** One `data/sec_filings/<ticker>` directory. */
  datatype TickerDir = TickerDir(ticker: string, files: seq<TextFile>)

  /** A JSON value of an article field: a string, or `null` (which the f-string renders as `None`). */
  datatype Field = Str(s: string) | Null

  type Article = map<string, Field>

  /** One file of `data/news` and the articles `json.load` returns from it. */
  datatype NewsFile = NewsFile(name: string, articles: seq<Article>)

  /** `f"{art.get(key, '')}"` */
  function FieldText(art: Article, key: string): string
  {
    if key !in art then ""
    else match art[key]
      case Str(s) => s
      case Null => "None"
  }

  /** `f"{title} {description} {content}"` of one article. */
  function ArticleText(art: Article): string
  {
    FieldText(art, "title") + " " + FieldText(art, "description") + " " + FieldText(art, "content")
  }

  /** The concatenation over the `.txt` files, in listing order, of each file's content and `"\n"`. */
  function SecText(files: seq<TextFile>): string
  {
    if files == [] then ""
    else
      var last := files[|files| - 1];
      SecText(files[..|files| - 1]) + (if EndsWith(last.name, ".txt") then last.content + "\n" else "")
  }

  /** The cleaned articles of one news file, in input order. */
  function CleanedArticles(data: seq<Article>): (r: seq<string>)
    ensures |r| == |data|
  {
    if data == [] then []
    else
      var n := |data| - 1;
      CleanedArticles(data[..n]) + [CleanText(ArticleText(data[n]))]
  }

  /** The output name: the input name with every `ext` replaced by `_clean.txt`. */
  function CleanName(name: string, ext: string): string
    requires |ext| > 0
  {
    ReplaceAll(name, ext, "_clean.txt")
  }

  function SecOutput(outDir: string): TickerDir -> Option<(string, string)>
  {
    (d: TickerDir) => Some((PathJoin(outDir, d.ticker + "_clean.txt"), CleanText(SecText(d.files))))
  }

  function NewsOutput(outDir: string): NewsFile -> Option<(string, string)>
  {
    (f: NewsFile) => if !EndsWith(f.name, ".json") then None
         else Some((PathJoin(outDir, CleanName(f.name, ".json")), Join("\n\n", CleanedArticles(f.articles))))
  }

  /** Market files: the pandas rendering of the last 30 rows is taken as the file's content. */
  function MarketOutput(outDir: string): TextFile -> Option<(string, string)>
  {
    (f: TextFile) => if !EndsWith(f.name, ".csv") then None
         else Some((PathJoin(outDir, CleanName(f.name, ".csv")), f.content))
  }

  /** `all_text` of `clean_sec_filings` for one ticker directory. */
  method AssembleSecText(files: seq<TextFile>) returns (allText: string)
    ensures allText == SecText(files)
  {
    allText := "";
    var i := 0;
    while i < |files|
      invariant 0 <= i <= |files|
      invariant allText == SecText(files[..i])
    {
      assert files[..i + 1][..i] == files[..i];
      if EndsWith(files[i].name, ".txt") {
        allText := allText + files[i].content + "\n";
      }
      i := i + 1;
    }
    assert files[..i] == files;
  }

  /** `clean_sec_filings`: one `<ticker>_clean.txt` per ticker directory, in listing order. */
  method CleanSecFilings(tickers: seq<TickerDir>, outDir: string, fs: map<seq<string>, string>)
    returns (fs': map<seq<string>, string>)
    ensures fs' == ApplyWrites(fs, Outputs(tickers, SecOutput(outDir)))
  {
    fs' := fs;
    var i := 0;
    while i < |tickers|
      invariant 0 <= i <= |tickers|
      invariant fs' == ApplyWrites(fs, Outputs(tickers[..i], SecOutput(outDir)))
    {
      var allText := AssembleSecText(tickers[i].files);
      var cleaned := CleanText(allText);
      WriteOutputsSnoc(fs, tickers, i, SecOutput(outDir));
      fs' := fs'[Key(PathJoin(outDir, tickers[i].ticker + "_clean.txt")) := cleaned];
      i := i + 1;
    }
    assert tickers[..i] == tickers;
  }

  /** The inner loop of `clean_news`: clean each article, then join with blank lines.
      The result has exactly one `"\n\n"` gap per pair of neighbouring articles. */
  method MergeArticles(data: seq<Article>) returns (merged: string)
    ensures merged == Join("\n\n", CleanedArticles(data))
    ensures |data| > 0 ==> Count('\n', merged) == 2 * (|data| - 1)
  {
    var articles: seq<string> := [];
    var i := 0;
    while i < |data|
      invariant 0 <= i <= |data|
      invariant articles == CleanedArticles(data[..i])
    {
      CleanedArticlesSnoc(data, i);
      articles := articles + [CleanText(ArticleText(data[i]))];
      i := i + 1;
    }
    assert data[..i] == data;
    merged := Join("\n\n", articles);
    if |data| > 0 {
      MergedNewlines(data);
    }
  }

  lemma CleanedArticlesSnoc(data: seq<Article>, i: nat)
    requires i < |data|
    ensures CleanedArticles(data[..i + 1]) == CleanedArticles(data[..i]) + [CleanText(ArticleText(data[i]))]
  {
    assert data[..i + 1][..i] == data[..i];
  }

  lemma MergedNewlines(data: seq<Article>)
    requires |data| > 0
    ensures Count('\n', Join("\n\n", CleanedArticles(data))) == 2 * (|data| - 1)
  {
    var articles := CleanedArticles(data);
    CountJoin('\n', "\n\n", articles);
    CleanedHaveNoNewline(data);
    assert Count('\n', "\n\n") == 2;
  }

  lemma {:induction false} CleanedHaveNoNewline(data: seq<Article>)
    ensures CountAll('\n', CleanedArticles(data)) == 0
  {
    if data != [] {
      var n := |data| - 1;
      CleanedHaveNoNewline(data[..n]);
      CleanTextHasNoNewline(ArticleText(data[n]));
      CountAllSnoc('\n', CleanedArticles(data[..n]), CleanText(ArticleText(data[n])));
    }
  }

  /** `clean_news`: for each `.json` file, the merged cleaned articles, written under the renamed name. */
  method CleanNews(listing: seq<NewsFile>, outDir: string, fs: map<seq<string>, string>)
    returns (fs': map<seq<string>, string>)
    ensures fs' == ApplyWrites(fs, Outputs(listing, NewsOutput(outDir)))
  {
    fs' := fs;
    var i := 0;
    while i < |listing|
      invariant 0 <= i <= |listing|
      invariant fs' == ApplyWrites(fs, Outputs(listing[..i], NewsOutput(outDir)))
    {
      WriteOutputsSnoc(fs, listing, i, NewsOutput(outDir));
      var file := listing[i];
      if EndsWith(file.name, ".json") {
        assert NewsOutput(outDir)(file)
               == Some((PathJoin(outDir, CleanName(file.name, ".json")), Join("\n\n", CleanedArticles(file.articles))));
        var merged := MergeArticles(file.articles);
        var outFile := PathJoin(outDir, CleanName(file.name, ".json"));
        fs' := fs'[Key(outFile) := merged];
      }
      i := i + 1;
    }
    assert listing[..i] == listing;
  }

  /** `clean_market`: for each `.csv` file, its rendering, written under the renamed name. */
  method CleanMarket(listing: seq<TextFile>, outDir: string, fs: map<seq<string>, string>)
    returns (fs': map<seq<string>, string>)
    ensures fs' == ApplyWrites(fs, Outputs(listing, MarketOutput(outDir)))
  {
    fs' := fs;
    var i := 0;
    while i < |listing|
      invariant 0 <= i <= |listing|
      invariant fs' == ApplyWrites(fs, Outputs(listing[..i], MarketOutput(outDir)))
    {
      WriteOutputsSnoc(fs, listing, i, MarketOutput(outDir));
      var file := listing[i];
      if EndsWith(file.name, ".csv") {
        assert MarketOutput(outDir)(file) == Some((PathJoin(outDir, CleanName(file.name, ".csv")), file.content));
        var outFile := PathJoin(outDir, CleanName(file.name, ".csv"));
        fs' := fs'[Key(outFile) := file.content];
      }
      i := i + 1;
    }
    assert listing[..i] == listing;
  }

  // ---------------------------------------------------------------------
  // Properties of the assemblers
  // ---------------------------------------------------------------------

  /** A `.json`/`.csv` name becomes a `_clean.txt` name; a stem that does not itself
      contain the extension is kept as it is. */
  lemma CleanNameOf(stem: string, ext: string)
    requires ext == ".json" || ext == ".csv"
    ensures EndsWith(CleanName(stem + ext, ext), "_clean.txt")
    ensures !Contains(stem, ext) ==> CleanName(stem + ext, ext) == stem + "_clean.txt"
  {
    UnborderedExtensions();
    ReplaceAllSuffix(stem, ext, "_clean.txt");
    if !Contains(stem, ext) {
      ReplaceAllAbsent(stem, ext, "_clean.txt");
    }
  }

  /** Each news output corresponds to one `.json` input, named by the renaming rule and
      holding its merged articles, one entry per article. */
  lemma NewsOutputOrigin(listing: seq<NewsFile>, outDir: string, k: nat) returns (j: nat)
    requires k < |Outputs(listing, NewsOutput(outDir))|
    ensures j < |listing| && EndsWith(listing[j].name, ".json")
    ensures Outputs(listing, NewsOutput(outDir))[k]
            == (PathJoin(outDir, CleanName(listing[j].name, ".json")), Join("\n\n", CleanedArticles(listing[j].articles)))
  {
    j := OutputsOrigin(listing, NewsOutput(outDir), k);
  }

  /** The SEC text of a listing is the SEC text of its parts, in listing order. */
  lemma {:induction false} SecTextAppend(a: seq<TextFile>, b: seq<TextFile>)
    ensures SecText(a + b) == SecText(a) + SecText(b)
    decreases |b|
  {
    if b == [] {
      assert a + b == a;
    } else {
      var n := |b| - 1;
      assert (a + b)[..|a + b| - 1] == a + b[..n];
      assert (a + b)[|a + b| - 1] == b[n];
      SecTextAppend(a, b[..n]);
    }
  }

  /** Files not ending in `.txt` do not contribute to the SEC text. */
  lemma {:induction false} SecTextIgnores(files: seq<TextFile>, f: TextFile)
    requires !EndsWith(f.name, ".txt")
    ensures SecText(files + [f]) == SecText(files)
    ensures SecText([f] + files) == SecText(files)
  {
    assert (files + [f])[..|files|] == files;
    SecTextAppend([f], files);
    assert [f][..0] == [];
  }
}

/** File names in the accountant's archive (app/services/export.py). */
module ExportNames {
  import opened Text

  // ---- the parts of a name ------------------------------------------------------

  predicate SlugChar(c: char) {
    'a' <= c <= 'z' || IsDigit(c)
  }

  /** Every run of other characters becomes one dash. */
  function Dashed(s: string): (r: string)
    ensures forall c | c in r :: SlugChar(c) || c == '-'
  {
    if s == "" then ""
    else if SlugChar(s[0]) then [s[0]] + Dashed(s[1..])
    else if |s| > 1 && !SlugChar(s[1]) then Dashed(s[1..])
    else "-" + Dashed(s[1..])
  }

  function TrimDashes(s: string): (r: string)
    ensures forall c | c in r :: c in s
  {
    if s != "" && s[0] == '-' then TrimDashes(s[1..])
    else if s != "" && s[|s| - 1] == '-' then TrimDashes(s[..|s| - 1])
    else s
  }

  function SlugifyMerchant(merchant: string): (slug: string)
    ensures 0 < |slug| <= 40 && forall c | c in slug :: SlugChar(c) || c == '-'
  {
    var slug := TrimDashes(Dashed(LowerText(merchant)));
    var named := if slug == "" then "unknown" else slug;
    if |named| > 40 then named[..40] else named
  }

  predicate Unsafe(c: char) {
    c == '\\' || c == '/' || c == ':' || c == '*' || c == '?' || c == '"' || c == '<' || c == '>' || c == '|'
  }

  function Safe(s: string): (r: string)
    ensures |r| == |s| && forall i | 0 <= i < |s| :: r[i] == if Unsafe(s[i]) then '-' else s[i]
  {
    seq(|s|, i requires 0 <= i < |s| => if Unsafe(s[i]) then '-' else s[i])
  }

  /** `os.path.splitext` of a name without directories: a leading run of dots is not an extension. */
  function SplitExt(name: string): (r: (string, string))
    ensures r.0 + r.1 == name
  {
    var k := LastIndex(name, '.');
    if k > 0 && exists i | 0 <= i < k :: name[i] != '.' then (name[..k], name[k..]) else (name, "")
  }

  predicate Reserved(stem: string) {
    var s := UpperText(stem);
    || s == "CON" || s == "PRN" || s == "AUX" || s == "NUL"
    || (|s| == 4 && (s[..3] == "COM" || s[..3] == "LPT") && '1' <= s[3] <= '9')
  }

  function SanitiseFilename(name: string): string {
    var (stem, ext) := SplitExt(Safe(name));
    if Reserved(stem) then "_" + stem + ext else stem + ext
  }

  /** `Path(path).suffix`. */
  function Suffix(path: string): (ext: string)
    ensures ext != "" ==> ext[0] == '.'
  {
    var name := path[LastIndex(path, '/') + 1..];
    var k := LastIndex(name, '.');
    if 0 < k < |name| - 1 then name[k..] else ""
  }

  function Extension(path: string): (ext: string)
    ensures ext != "" && ext[0] == '.'
  {
    var ext := LowerText(Suffix(path));
    if ext == "" then ".bin" else ext
  }

  datatype Charge = Charge(isoDate: string, code: string, merchant: string, paths: seq<string>)

  function RawName(c: Charge, path: string, index: nat): string {
    c.isoDate + "_" + (c.code + "_" + (SlugifyMerchant(c.merchant) + "_" + (Decimal(index) + Extension(path))))
  }

  function ReceiptFilename(c: Charge, path: string, index: nat): string {
    SanitiseFilename(RawName(c, path, index))
  }

  /** An ISO date has neither underscores nor characters that need replacing. */
  predicate PlainDate(s: string) {
    forall c | c in s :: IsDigit(c) || c == '-'
  }

  // ---- the name can be taken apart again ------------------------------------------

  lemma SafeAppend(a: string, b: string)
    ensures Safe(a + b) == Safe(a) + Safe(b)
  {
  }

  lemma SafeFixed(s: string)
    requires forall c | c in s :: !Unsafe(c)
    ensures Safe(s) == s
  {
    assert forall i | 0 <= i < |s| :: s[i] in s;
  }

  lemma SafeKeepsUnderscoreFree(s: string)
    requires '_' !in s
    ensures '_' !in Safe(s)
  {
    assert forall i | 0 <= i < |s| :: s[i] in s;
  }

  lemma UnderscoreIsNotReserved(stem: string, k: nat)
    requires k < |stem| && stem[k] == '_'
    ensures !Reserved(stem)
  {
    var s := UpperText(stem);
    assert s[k] == '_';
    if |s| == 4 && k < 3 { assert s[..3][k] == '_'; }
  }

  /** Sanitising a receipt name only replaces characters, because it holds an underscore. */
  lemma SanitiseWithUnderscore(name: string, k: nat)
    requires k < |name| && name[k] == '_' && k < LastIndex(name, '.')
    ensures SanitiseFilename(name) == Safe(name)
  {
    var s := Safe(name);
    var dot := LastIndex(name, '.');
    assert s[k] == '_' && s[dot] == '.';
    var (stem, ext) := SplitExt(s);
    assert |stem| > k && stem[k] == '_';
    UnderscoreIsNotReserved(stem, k);
  }

  lemma ExtensionDot(c: Charge, path: string, index: nat)
    requires PlainDate(c.isoDate)
    ensures var name := RawName(c, path, index);
            |c.isoDate| < |name| && name[|c.isoDate|] == '_' && |c.isoDate| < LastIndex(name, '.')
  {
    var name, ext := RawName(c, path, index), Extension(path);
    assert name[|c.isoDate|] == '_';
    assert name[|name| - |ext|..] == ext;
    assert name[|name| - |ext|] == '.';
  }

  lemma SafeRawName(c: Charge, path: string, index: nat)
    requires PlainDate(c.isoDate)
    ensures ReceiptFilename(c, path, index) ==
      c.isoDate + "_" + (Safe(c.code) + "_" + (SlugifyMerchant(c.merchant) + "_" +
        (Decimal(index) + Safe(Extension(path)))))
  {
    hide SanitiseFilename, SlugifyMerchant, Decimal, Extension, Safe;
    var name := RawName(c, path, index);
    ExtensionDot(c, path, index);
    SanitiseWithUnderscore(name, |c.isoDate|);
    var slug, number, ext := SlugifyMerchant(c.merchant), Decimal(index), Extension(path);
    SafeFixed(c.isoDate + "_");
    SafeFixed("_");
    SafeFixed(slug + "_");
    SafeFixed(number);
    SafeAppend(number, ext);
    SafeAppend(slug + "_", number + ext);
    SafeAppend(c.code, "_");
    SafeAppend(c.code + "_", slug + "_" + (number + ext));
    SafeAppend(c.isoDate + "_", c.code + "_" + (slug + "_" + (number + ext)));
  }

  /** The first separator tells where the first part ends. */
  lemma PartsUnique(a: string, b: string, a': string, b': string, sep: char)
    requires sep !in a && sep !in a' && a + [sep] + b == a' + [sep] + b'
    ensures a == a' && b == b'
  {
    FirstSeparator(a, b, sep);
    FirstSeparator(a', b', sep);
    var s := a + [sep] + b;
    assert a == s[..|a|] && b == s[|a| + 1..];
    assert a' == s[..|a'|] && b' == s[|a'| + 1..];
  }

  lemma NumberUnique(m: nat, x: string, n: nat, y: string)
    requires x != "" && y != "" && x[0] == '.' && y[0] == '.'
    requires Decimal(m) + x == Decimal(n) + y
    ensures m == n
  {
    hide Decimal;
    assert Decimal(m) + x == Decimal(m) + "." + x[1..];
    assert Decimal(n) + y == Decimal(n) + "." + y[1..];
    PartsUnique(Decimal(m), x[1..], Decimal(n), y[1..], '.');
    DecimalInjective(m, n);
  }

  /**
   For codes without underscores a receipt name determines the index, and the
   code up to the replacement of characters that file systems refuse.
  */
  lemma NameDeterminesCodeAndIndex(c: Charge, path: string, m: nat, c': Charge, path': string, n: nat)
    requires PlainDate(c.isoDate) && PlainDate(c'.isoDate) && '_' !in c.code && '_' !in c'.code
    requires ReceiptFilename(c, path, m) == ReceiptFilename(c', path', n)
    ensures Safe(c.code) == Safe(c'.code) && m == n
  {
    hide ReceiptFilename, Decimal, Extension, SlugifyMerchant, Safe;
    SafeRawName(c, path, m);
    SafeRawName(c', path', n);
    SafeKeepsUnderscoreFree(c.code);
    SafeKeepsUnderscoreFree(c'.code);
    var tail, tail' := Decimal(m) + Safe(Extension(path)), Decimal(n) + Safe(Extension(path'));
    var slug, slug' := SlugifyMerchant(c.merchant), SlugifyMerchant(c'.merchant);
    PartsUnique(c.isoDate, Safe(c.code) + "_" + (slug + "_" + tail),
                c'.isoDate, Safe(c'.code) + "_" + (slug' + "_" + tail'), '_');
    PartsUnique(Safe(c.code), slug + "_" + tail, Safe(c'.code), slug' + "_" + tail', '_');
    PartsUnique(slug, tail, slug', tail', '_');
    SafeExtension(path);
    SafeExtension(path');
    NumberUnique(m, Safe(Extension(path)), n, Safe(Extension(path')));
  }

  lemma SafeExtension(path: string)
    ensures Safe(Extension(path)) != "" && Safe(Extension(path))[0] == '.'
  {
  }

  /** Exactly when two receipts of charges that differ only in their code share a name. */
  lemma NamesCollideExactly(c: Charge, path: string, m: nat, code': string, n: nat)
    requires PlainDate(c.isoDate) && '_' !in c.code && '_' !in code'
    ensures ReceiptFilename(c, path, m) == ReceiptFilename(c.(code := code'), path, n)
            <==> Safe(c.code) == Safe(code') && m == n
  {
    hide ReceiptFilename, Decimal, Extension, SlugifyMerchant, Safe;
    var c' := c.(code := code');
    if ReceiptFilename(c, path, m) == ReceiptFilename(c', path, n) {
      NameDeterminesCodeAndIndex(c, path, m, c', path, n);
    } else {
      SafeRawName(c, path, m);
      SafeRawName(c', path, n);
    }
  }

  /**
   So plain injectivity is false of codes that hold a refused character: charges
   coded 1/2 and 1-2 share every receipt name.  No code of a run is like that.
  */
  lemma SlashAndDashCollide(c: Charge, path: string, index: nat)
    requires PlainDate(c.isoDate) && c.code == "1/2"
    ensures var c' := c.(code := "1-2");
            c'.code != c.code && ReceiptFilename(c, path, index) == ReceiptFilename(c', path, index)
  {
    hide ReceiptFilename;
    assert "1/2"[1] != "1-2"[1];
    assert Safe("1/2") == Safe("1-2");
    NamesCollideExactly(c, path, index, "1-2", index);
  }

  // ---- the parts, told by the texts -----------------------------------------------------

  predicate WordChar(c: char) {
    'a' <= c <= 'z' || '0' <= c <= '9'
  }

  /** The maximal runs of lower-case letters and digits, in order. */
  function Words(s: string): (ws: seq<string>)
    ensures forall w | w in ws :: w != "" && forall c | c in w :: WordChar(c)
    ensures s != "" && WordChar(s[0]) ==> ws != []
  {
    if s == "" then []
    else
      var rest := Words(s[1..]);
      if !WordChar(s[0]) then rest
      else if |s| > 1 && WordChar(s[1]) then
        assert rest[0] in rest;
        Grown(s[0], rest)
      else [[s[0]]] + rest
  }

  /** One more character in front of the first word. */
  function Grown(c: char, ws: seq<string>): (r: seq<string>)
    requires ws != []
    ensures r != [] && r[0] == [c] + ws[0] && r[1..] == ws[1..]
    ensures forall w | w in r :: w == [c] + ws[0] || w in ws
  {
    [[c] + ws[0]] + ws[1..]
  }

  /** A dash when the text is not empty and starts with something else than a word. */
  function LeadingDash(s: string): string {
    if s != "" && !SlugChar(s[0]) then "-" else ""
  }

  /** A dash when something else than a word stands behind the last word. */
  function TrailingDash(s: string): string {
    if Words(s) != [] && !SlugChar(s[|s| - 1]) then "-" else ""
  }

  lemma JoinGrown(c: char, ws: seq<string>)
    requires ws != []
    ensures Join(Grown(c, ws), '-') == [c] + Join(ws, '-')
  {
    var r := Grown(c, ws);
    if |ws| > 1 {
      assert ([c] + ws[0]) + ['-'] + Join(ws[1..], '-') == [c] + (ws[0] + ['-'] + Join(ws[1..], '-'));
    }
  }

  lemma JoinNew(w: string, rest: seq<string>)
    ensures Join([w] + rest, '-') == if rest == [] then w else w + ("-" + Join(rest, '-'))
  {
    assert ([w] + rest)[1..] == rest;
    if rest != [] { assert w + ['-'] + Join(rest, '-') == w + ("-" + Join(rest, '-')); }
  }

  /** The words with one dash between two of them, and dashes at the ends. */
  function DashedWords(s: string): string {
    if Words(s) == [] then LeadingDash(s) else LeadingDash(s) + (Join(Words(s), '-') + TrailingDash(s))
  }

  /** Dashing a text leaves its words, with a dash at an end where it has more. */
  lemma {:induction false} DashedIsWords(s: string)
    ensures Dashed(s) == DashedWords(s)
    decreases |s|
  {
    hide Dashed, DashedWords;
    if s == "" {
      NothingDashed();
    } else {
      DashedIsWords(s[1..]);
      DashedCons(s);
      if SlugChar(s[0]) { WordInFront(s); } else { OtherInFront(s); }
    }
  }

  lemma NothingDashed()
    ensures Dashed("") == DashedWords("")
  {
  }

  lemma DashedCons(s: string)
    requires s != ""
    ensures Dashed(s) == if SlugChar(s[0]) then [s[0]] + Dashed(s[1..])
                         else if |s| > 1 && !SlugChar(s[1]) then Dashed(s[1..]) else "-" + Dashed(s[1..])
  {
  }

  lemma SameTail(s: string)
    requires |s| > 1
    ensures s[1..] != "" && s[1..][0] == s[1] && s[1..][|s| - 2] == s[|s| - 1]
  {
  }

  lemma OtherInFront(s: string)
    requires s != "" && !SlugChar(s[0])
    ensures DashedWords(s) == if |s| > 1 && !SlugChar(s[1]) then DashedWords(s[1..]) else "-" + DashedWords(s[1..])
  {
    var rest := s[1..];
    assert Words(s) == Words(rest);
    if |s| > 1 { SameTail(s); }
    hide Words, Join;
    assert TrailingDash(s) == TrailingDash(rest);
  }

  lemma WordInFront(s: string)
    requires s != "" && SlugChar(s[0])
    ensures DashedWords(s) == [s[0]] + DashedWords(s[1..])
  {
    var rest := s[1..];
    var ws := Words(rest);
    if |s| > 1 { SameTail(s); }
    if |s| > 1 && SlugChar(s[1]) {
      JoinGrown(s[0], ws);
      FrontGrows(s, Join(ws, '-'));
    } else {
      JoinNew([s[0]], ws);
      FrontIsNew(s);
    }
  }

  lemma FrontGrows(s: string, j: string)
    requires |s| > 1 && SlugChar(s[0]) && SlugChar(s[1])
    requires Join(Words(s), '-') == [s[0]] + j && j == Join(Words(s[1..]), '-')
    ensures DashedWords(s) == [s[0]] + DashedWords(s[1..])
  {
    SameTail(s);
    WordsInFront(s);
    WordsInFront(s[1..]);
    hide Words, Join;
    var t := TrailingDash(s);
    assert LeadingDash(s) == LeadingDash(s[1..]) == "" && TrailingDash(s[1..]) == t;
    Nothing([s[0]] + j + t);
    Nothing(j + t);
    Regroup([s[0]], j, t);
  }

  lemma Nothing(x: string)
    ensures "" + x == x
  {
  }

  lemma Regroup(a: string, b: string, c: string)
    ensures a + b + c == a + (b + c)
  {
  }

  lemma WordsInFront(s: string)
    requires s != "" && SlugChar(s[0])
    ensures Words(s) != []
  {
  }

  lemma FrontIsNew(s: string)
    requires s != "" && SlugChar(s[0]) && (|s| > 1 ==> !SlugChar(s[1]))
    requires Words(s) == [[s[0]]] + Words(s[1..])
    requires var ws := Words(s[1..]);
             Join(Words(s), '-') == if ws == [] then [s[0]] else [s[0]] + ("-" + Join(ws, '-'))
    ensures DashedWords(s) == [s[0]] + DashedWords(s[1..])
  {
    var rest := s[1..];
    if |s| > 1 { SameTail(s); }
    NoWords(rest);
    hide Words, Join;
    var ws, j, t := Words(rest), Join(Words(rest), '-'), TrailingDash(s);
    assert LeadingDash(s) == "";
    if ws != [] {
      assert LeadingDash(rest) == "-" && TrailingDash(rest) == t;
      Nothing([s[0]] + ("-" + j) + t);
      Regroup([s[0]], "-" + j, t);
      Regroup("-", j, t);
    } else {
      Nothing([s[0]] + t);
      if rest != "" { assert rest[0] in rest && rest[|rest| - 1] in rest; }
      assert t == LeadingDash(rest);
    }
  }

  lemma {:induction false} NoWords(s: string)
    ensures Words(s) == [] ==> forall c | c in s :: !SlugChar(c)
    decreases |s|
  {
    if s != "" {
      NoWords(s[1..]);
      assert forall c | c in s :: c == s[0] || c in s[1..];
    }
  }

  lemma {:induction false} JoinedEnds(ws: seq<string>)
    requires ws != [] && forall w | w in ws :: w != "" && forall c | c in w :: SlugChar(c)
    ensures var j := Join(ws, '-'); j != "" && SlugChar(j[0]) && SlugChar(j[|j| - 1])
    decreases |ws|
  {
    assert ws[0] in ws && ws[0][0] in ws[0] && ws[0][|ws[0]| - 1] in ws[0];
    assert forall w | w in ws[1..] :: w in ws;
    if |ws| > 1 { JoinedEnds(ws[1..]); }
  }

  lemma TrimsOneEach(a: string, j: string, b: string)
    requires (a == "" || a == "-") && (b == "" || b == "-")
    requires j != "" && SlugChar(j[0]) && SlugChar(j[|j| - 1])
    ensures TrimDashes(a + (j + b)) == j
  {
    var t := j + b;
    assert t[0] == j[0];
    if b == "" { assert t == j; } else { assert t[..|t| - 1] == j; }
    assert TrimDashes(t) == j;
    if a == "" { assert a + t == t; } else { assert (a + t)[1..] == t; }
  }

  /**
   The slug of a merchant: the words of its name in lower case, joined by dashes, at
   most forty characters of that; "unknown" when it has none.
  */
  lemma SlugIsItsWords(merchant: string)
    ensures var words := Words(LowerText(merchant));
            var all := Join(words, '-');
            SlugifyMerchant(merchant) == if words == [] then "unknown" else if |all| > 40 then all[..40] else all
  {
    var s := LowerText(merchant);
    DashedIsWords(s);
    hide Dashed, Words, Join;
    if Words(s) == [] {
      assert Dashed(s) == "" || Dashed(s) == "-";
      assert TrimDashes("-") == "" by { assert "-"[1..] == ""; }
    } else {
      JoinedEnds(Words(s));
      TrimsOneEach(LeadingDash(s), Join(Words(s), '-'), TrailingDash(s));
    }
  }

  lemma NoSlashAfter(dir: string, name: string)
    requires (dir == "" || dir[|dir| - 1] == '/') && '/' !in name
    ensures (dir + name)[LastIndex(dir + name, '/') + 1..] == name
  {
    var path := dir + name;
    var k := LastIndex(path, '/');
    assert forall i | |dir| <= i < |path| :: path[i] == name[i - |dir|] && path[i] in name;
    if dir != "" { assert path[|dir| - 1] == '/'; }
    assert k == |dir| - 1;
  }

  /** The extension of a stored file: what follows the last dot of its name, in lower case. */
  lemma ExtensionIs(dir: string, stem: string, e: string)
    requires (dir == "" || dir[|dir| - 1] == '/') && '/' !in stem && '/' !in e && '.' !in e && stem != "" && e != ""
    ensures Extension(dir + (stem + "." + e)) == "." + LowerText(e)
  {
    NoSlashAfter(dir, stem + "." + e);
    LastDot(stem, e);
    hide LastIndex, Lower;
    assert Suffix(dir + (stem + "." + e)) == "." + e;
    LowerDotted(e);
  }

  lemma LastDot(stem: string, e: string)
    requires '.' !in e
    ensures var name := stem + "." + e; LastIndex(name, '.') == |stem| && name[|stem|..] == "." + e
  {
    var name := stem + "." + e;
    assert name[|stem|] == '.' && forall i | |stem| < i < |name| :: name[i] == e[i - |stem| - 1] && name[i] in e;
  }

  lemma LowerDotted(e: string)
    ensures LowerText("." + e) == "." + LowerText(e)
  {
  }

  /** A name whose last dot, if any, is its first or last character has none, and gets `.bin`. */
  lemma NoExtensionIs(dir: string, name: string)
    requires (dir == "" || dir[|dir| - 1] == '/') && '/' !in name
    requires name == "" || '.' !in name || name[|name| - 1] == '.' || '.' !in name[1..]
    ensures Extension(dir + name) == ".bin"
  {
    NoSlashAfter(dir, name);
    NoInnerDot(name);
    hide LastIndex;
    assert Suffix(dir + name) == "";
    assert LowerText("") == "";
  }

  lemma NoInnerDot(name: string)
    requires name == "" || '.' !in name || name[|name| - 1] == '.' || '.' !in name[1..]
    ensures !(0 < LastIndex(name, '.') < |name| - 1)
  {
    assert forall i | 0 < i < |name| :: name[i] == name[1..][i - 1];
  }

  /** The name of a receipt of a charge whose code is a number: date, code, slug and index, then the extension. */
  lemma NameIs(c: Charge, path: string, index: nat)
    requires PlainDate(c.isoDate) && AllDigits(c.code)
    ensures ReceiptFilename(c, path, index)
            == c.isoDate + "_" + (c.code + "_" + (SlugifyMerchant(c.merchant) + "_"
                                                  + (Decimal(index) + Safe(Extension(path)))))
  {
    hide ReceiptFilename, SlugifyMerchant, Decimal, Extension, Safe;
    SafeRawName(c, path, index);
    SafeFixed(c.code);
  }

  /** What is replaced: the nine characters file systems refuse, each by a dash. */
  lemma SafeIs(s: string, i: nat)
    requires i < |s|
    ensures |Safe(s)| == |s|
    ensures Safe(s)[i] == if s[i] in {'\\', '/', ':', '*', '?', '"', '<', '>', '|'} then '-' else s[i]
  {
  }

  /** Device names get an underscore in front, in any mixture of cases. */
  lemma ReservedAre(stem: string)
    ensures Reserved(stem) <==>
            || UpperText(stem) in {"CON", "PRN", "AUX", "NUL"}
            || (|stem| == 4 && UpperText(stem)[..3] in {"COM", "LPT"}
                && stem[3] in {'1', '2', '3', '4', '5', '6', '7', '8', '9'})
  {
    if |stem| == 4 { assert UpperText(stem)[3] == Upper(stem[3]); }
  }

  // ---- the names of a whole export ----------------------------------------------------

  /** The `receipt_files` cell of one row, before it is joined with semicolons. */
  function FilesOf(c: Charge): seq<string> {
    seq(|c.paths|, i requires 0 <= i < |c.paths| => ReceiptFilename(c, c.paths[i], i + 1))
  }

  function AllFiles(charges: seq<Charge>): seq<string> {
    if charges == [] then [] else AllFiles(charges[..|charges| - 1]) + FilesOf(charges[|charges| - 1])
  }

  ghost predicate Distinct(names: seq<string>) {
    forall i, j | 0 <= i < j < |names| :: names[i] != names[j]
  }

  /** Every date is ISO, every code underscore-free, and codes stay distinct once sanitised. */
  ghost predicate ProperCodes(charges: seq<Charge>) {
    && (forall c | c in charges :: PlainDate(c.isoDate) && '_' !in c.code)
    && (forall i, j | 0 <= i < j < |charges| :: Safe(charges[i].code) != Safe(charges[j].code))
  }

  /** Receipts are numbered from one, in order. */
  lemma FilesAre(c: Charge, i: nat)
    requires i < |c.paths|
    ensures |FilesOf(c)| == |c.paths| && FilesOf(c)[i] == ReceiptFilename(c, c.paths[i], i + 1)
  {
    hide ReceiptFilename;
  }

  lemma AllFilesLast(charges: seq<Charge>, c: Charge)
    ensures AllFiles(charges + [c]) == AllFiles(charges) + FilesOf(c)
  {
    var t := charges + [c];
    assert t[..|t| - 1] == charges && t[|t| - 1] == c;
  }

  lemma {:induction false} FileHasOwner(charges: seq<Charge>, name: string)
    requires name in AllFiles(charges)
    ensures exists c, i :: c in charges && 0 <= i < |c.paths| && name == ReceiptFilename(c, c.paths[i], i + 1)
    decreases |charges|
  {
    hide ReceiptFilename;
    var init, last := charges[..|charges| - 1], charges[|charges| - 1];
    assert charges == init + [last];
    AllFilesLast(init, last);
    hide AllFiles;
    if name in AllFiles(init) {
      FileHasOwner(init, name);
    } else {
      var i :| 0 <= i < |FilesOf(last)| && FilesOf(last)[i] == name;
      assert last in charges && name == ReceiptFilename(last, last.paths[i], i + 1);
    }
  }

  lemma AppendDistinct(a: seq<string>, b: seq<string>)
    requires Distinct(a) && Distinct(b) && forall x | x in a :: x !in b
    ensures Distinct(a + b)
  {
    var t := a + b;
    forall i, j | 0 <= i < j < |t| ensures t[i] != t[j] {
      if j < |a| {
        assert t[i] == a[i] && t[j] == a[j];
      } else if i >= |a| {
        assert t[i] == b[i - |a|] && t[j] == b[j - |a|];
      } else {
        assert t[i] in a && t[j] == b[j - |a|];
      }
    }
  }

  lemma OneChargeDistinct(c: Charge)
    requires PlainDate(c.isoDate) && '_' !in c.code
    ensures Distinct(FilesOf(c))
  {
    hide ReceiptFilename;
    var files := FilesOf(c);
    forall m, n | 0 <= m < n < |files| ensures files[m] != files[n] {
      if files[m] == files[n] {
        NameDeterminesCodeAndIndex(c, c.paths[m], m + 1, c, c.paths[n], n + 1);
      }
    }
  }

  lemma OtherChargeDistinct(c: Charge, m: nat, c': Charge)
    requires PlainDate(c.isoDate) && PlainDate(c'.isoDate) && '_' !in c.code && '_' !in c'.code
    requires Safe(c.code) != Safe(c'.code) && m < |c.paths|
    ensures ReceiptFilename(c, c.paths[m], m + 1) !in FilesOf(c')
  {
    hide ReceiptFilename, Safe;
    var name, files := ReceiptFilename(c, c.paths[m], m + 1), FilesOf(c');
    forall n | 0 <= n < |files| ensures files[n] != name {
      if files[n] == name {
        NameDeterminesCodeAndIndex(c, c.paths[m], m + 1, c', c'.paths[n], n + 1);
      }
    }
  }

  /** With proper codes no name in the whole export repeats. */
  lemma {:induction false} FilesAreDistinct(charges: seq<Charge>)
    requires ProperCodes(charges)
    ensures Distinct(AllFiles(charges))
    decreases |charges|
  {
    if charges != [] {
      hide ReceiptFilename, Safe, FilesOf, AllFiles, PlainDate, Distinct;
      var init, last := charges[..|charges| - 1], charges[|charges| - 1];
      assert charges == init + [last];
      AllFilesLast(init, last);
      ProperPrefix(charges);
      FilesAreDistinct(init);
      OneChargeDistinct(last);
      forall x | x in AllFiles(init) ensures x !in FilesOf(last) { NotAmongEarlier(init, last, x); }
      AppendDistinct(AllFiles(init), FilesOf(last));
    } else {
      assert AllFiles(charges) == [];
    }
  }

  lemma NotAmongEarlier(init: seq<Charge>, last: Charge, name: string)
    requires ProperCodes(init + [last]) && name in AllFiles(init)
    ensures name !in FilesOf(last)
  {
    hide ReceiptFilename, Safe, FilesOf, AllFiles, PlainDate;
    FileHasOwner(init, name);
    var c, k :| c in init && 0 <= k < |c.paths| && name == ReceiptFilename(c, c.paths[k], k + 1);
    var i :| 0 <= i < |init| && init[i] == c;
    var all := init + [last];
    assert all[i] == c && all[|init|] == last && c in all && last in all;
    OtherChargeDistinct(c, k, last);
  }

  lemma ProperPrefix(charges: seq<Charge>)
    requires ProperCodes(charges) && charges != []
    ensures ProperCodes(charges[..|charges| - 1])
    ensures forall c | c in charges :: PlainDate(c.isoDate) && '_' !in c.code
    ensures charges[|charges| - 1] in charges
  {
    hide Safe, PlainDate;
  }

  // ---- the collision loop ---------------------------------------------------------------

  /** The n-th name tried for a base: the base itself, then stem-2, stem-3, ... */
  function Attempt(base: string, n: nat): string {
    if n < 2 then base
    else SplitExt(base).0 + "-" + Decimal(n) + SplitExt(base).1
  }

  /** Counting starts at two, in front of the extension. */
  lemma AttemptIs(stem: string, e: string, n: nat)
    requires '.' !in e && stem != "" && stem[0] != '.' && n >= 2
    ensures Attempt(stem + "." + e, 1) == stem + "." + e
    ensures Attempt(stem + "." + e, n) == stem + "-" + Decimal(n) + ("." + e)
  {
    LastDot(stem, e);
    var name := stem + "." + e;
    assert name[0] == stem[0] && name[..|stem|] == stem;
  }

  lemma AttemptsDiffer(base: string, m: nat, n: nat)
    requires 1 <= m < n
    ensures Attempt(base, m) != Attempt(base, n)
  {
    hide SplitExt, Decimal;
    var (stem, ext) := SplitExt(base);
    var b := Attempt(base, n);
    if m < 2 {
      assert |b| > |stem| + |ext| == |base|;
    } else {
      var a := Attempt(base, m);
      if a == b {
        var dm, dn := Decimal(m), Decimal(n);
        assert a[|stem| + 1..|a| - |ext|] == dm;
        assert b[|stem| + 1..|b| - |ext|] == dn;
        DecimalInjective(m, n);
      }
    }
  }

  /** The first attempt that is not yet in use; the loop ends because the used names do. */
  method FreeName(base: string, used: set<string>) returns (name: string, ghost n: nat)
    ensures name !in used && n >= 1 && name == Attempt(base, n)
    ensures base !in used ==> name == base
    ensures forall k | 1 <= k < n :: Attempt(base, k) in used
  {
    name := base;
    var counter := 2;
    n := 1;
    ghost var tried: set<string> := {};
    while name in used
      invariant n >= 1 && counter == n + 1 && name == Attempt(base, n)
      invariant tried <= used && (n > 1 ==> base in used)
      invariant forall k | 1 <= k < n :: Attempt(base, k) in tried
      invariant forall t | t in tried :: exists k :: 1 <= k < n && t == Attempt(base, k)
      decreases |used| - |tried|
    {
      assert name !in tried by {
        forall k | 1 <= k < n ensures Attempt(base, k) != name { AttemptsDiffer(base, k, n); }
      }
      SubsetSize(tried + {name}, used);
      tried := tried + {name};
      var (stem, ext) := SplitExt(base);
      name := stem + "-" + Decimal(counter) + ext;
      counter := counter + 1;
      n := n + 1;
    }
  }

  lemma {:induction false} SubsetSize(a: set<string>, b: set<string>)
    requires a <= b
    ensures |a| <= |b|
    decreases |a|
  {
    if a != {} {
      var x :| x in a;
      SubsetSize(a - {x}, b - {x});
    }
  }

  /**
   Archive names for every receipt of an export: always pairwise distinct, and
   with proper codes exactly the names the CSV lists.
  */
  method NameEntries(charges: seq<Charge>) returns (entries: seq<string>)
    ensures |entries| == |AllFiles(charges)| && Distinct(entries)
    ensures Distinct(AllFiles(charges)) ==> entries == AllFiles(charges)
    ensures ProperCodes(charges) ==> entries == AllFiles(charges)
  {
    hide ReceiptFilename, ProperCodes, AllFiles, NamedSoFar, Attempt;
    entries := [];
    var used: set<string> := {};
    NothingNamed();
    for t := 0 to |charges|
      invariant NamedSoFar(entries, used, AllFiles(charges[..t]))
    {
      var c := charges[t];
      assert charges[..t + 1] == charges[..t] + [c];
      AllFilesLast(charges[..t], c);
      ghost var before, files := AllFiles(charges[..t]), FilesOf(c);
      assert before + files[..0] == before;
      for i := 0 to |c.paths|
        invariant NamedSoFar(entries, used, before + files[..i])
      {
        var base := ReceiptFilename(c, c.paths[i], i + 1);
        ghost var n;
        var name: string;
        name, n := FreeName(base, used);
        NameOneMore(entries, used, before + files[..i], base, name);
        assert files[i] == base;
        assert before + files[..i + 1] == before + files[..i] + [base];
        used := used + {name};
        entries := entries + [name];
      }
      assert files[..|files|] == files;
    }
    assert charges[..|charges|] == charges;
    NamedAll(entries, used, AllFiles(charges));
    if ProperCodes(charges) { FilesAreDistinct(charges); }
  }

  ghost predicate NamedSoFar(entries: seq<string>, used: set<string>, bases: seq<string>) {
    && |entries| == |bases| && Distinct(entries)
    && (forall x :: x in used <==> x in entries)
    && (Distinct(bases) ==> entries == bases)
  }

  lemma NothingNamed()
    ensures NamedSoFar([], {}, AllFiles([]))
  {
  }

  lemma NamedAll(entries: seq<string>, used: set<string>, bases: seq<string>)
    requires NamedSoFar(entries, used, bases)
    ensures |entries| == |bases| && Distinct(entries) && (Distinct(bases) ==> entries == bases)
  {
  }

  lemma NameOneMore(entries: seq<string>, used: set<string>, bases: seq<string>, base: string, name: string)
    requires NamedSoFar(entries, used, bases)
    requires name !in used && (base !in used ==> name == base)
    ensures NamedSoFar(entries + [name], used + {name}, bases + [base])
  {
    var bases' := bases + [base];
    if Distinct(bases') {
      assert Distinct(bases) by {
        assert forall i | 0 <= i < |bases| :: bases[i] == bases'[i];
      }
      assert base !in bases by {
        forall i | 0 <= i < |bases| ensures bases[i] != base { assert bases'[i] != bases'[|bases|]; }
      }
    }
  }
}

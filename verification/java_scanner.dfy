/**
 * The Java scanner service: the dependency-jar and class-directory settings
 * handed to the analysis engine, and the per-module counting loop of scan.
 */
module JavaScanner {
  import opened CycloneDx
  import opened Deduplication
  import opened Sanitize
  import opened Scanning

  // ---------------------------------------------------------------------------
  // String helpers: indexOf, the \s*,\s* split and the "," join
  // ---------------------------------------------------------------------------

  /** String.indexOf(c): the first index holding c, or -1. */
  function IndexOf(s: string, c: char): (r: int)
    ensures -1 <= r < |s|
    ensures r == -1 <==> c !in s
    ensures r >= 0 ==> s[r] == c && c !in s[..r]
    decreases |s|
  {
    if s == [] then -1
    else if s[0] == c then 0
    else
      var k := IndexOf(s[1..], c);
      if k == -1 then -1
      else
        assert s[..k + 1] == [s[0]] + s[1..][..k];
        k + 1
  }

  const GlobChars: seq<char> := ['*', '?', '[', '{']

  predicate IsGlobChar(c: char)
  {
    c in GlobChars
  }

  /** The smallest index holding a glob character, or -1 when there is none. */
  function FirstGlob(p: string): (r: int)
    ensures -1 <= r < |p|
    ensures r == -1 <==> forall k :: 0 <= k < |p| ==> !IsGlobChar(p[k])
    ensures r >= 0 ==> IsGlobChar(p[r]) && forall k :: 0 <= k < r ==> !IsGlobChar(p[k])
    decreases |p|
  {
    if p == [] then -1
    else if IsGlobChar(p[0]) then 0
    else
      var k := FirstGlob(p[1..]);
      if k == -1 then -1
      else
        assert forall j :: 1 <= j < |p| ==> p[j] == p[1..][j - 1];
        k + 1
  }

  /** indexOfFirstGlobChar: the min-index loop over the four glob characters. */
  method IndexOfFirstGlobChar(pattern: string) returns (minIdx: int)
    ensures minIdx == FirstGlob(pattern)
  {
    minIdx := -1;
    for i := 0 to |GlobChars|
      invariant -1 <= minIdx < |pattern|
      invariant minIdx == -1 ==> forall j :: 0 <= j < i ==> GlobChars[j] !in pattern
      invariant minIdx >= 0 ==> pattern[minIdx] in GlobChars[..i]
      invariant minIdx >= 0 ==> forall k :: 0 <= k < minIdx ==> pattern[k] !in GlobChars[..i]
    {
      var c := GlobChars[i];
      var idx := IndexOf(pattern, c);
      if idx != -1 && (minIdx == -1 || idx < minIdx) {
        minIdx := idx;
      }
      assert GlobChars[..i + 1] == GlobChars[..i] + [c];
      if minIdx >= 0 && idx != -1 && idx != minIdx {
        assert c !in pattern[..idx];
        assert forall k :: 0 <= k < minIdx ==> pattern[k] != c by {
          forall k | 0 <= k < minIdx ensures pattern[k] != c {
            assert pattern[k] == pattern[..idx][k];
          }
        }
      }
      if minIdx >= 0 && idx == -1 {
        assert forall k :: 0 <= k < minIdx ==> pattern[k] != c;
      }
      if minIdx == idx && idx >= 0 {
        assert forall k :: 0 <= k < minIdx ==> pattern[k] != c by {
          forall k | 0 <= k < minIdx ensures pattern[k] != c {
            assert pattern[k] == pattern[..idx][k];
          }
        }
      }
    }
    assert GlobChars[..4] == GlobChars;
  }

  /** Java's \s: space, tab, line feed, vertical tab, form feed, carriage return. */
  predicate IsJavaSpace(c: char)
  {
    c == ' ' || c == '\t' || c == '\n' || c == '\r' || c as int == 11 || c as int == 12
  }

  /** The string without its leading whitespace. */
  function TrimLeft(s: string): (r: string)
    ensures |r| <= |s| && r == s[|s| - |r|..]
    ensures r == [] || !IsJavaSpace(r[0])
    ensures forall k :: 0 <= k < |s| - |r| ==> IsJavaSpace(s[k])
    decreases |s|
  {
    if s != [] && IsJavaSpace(s[0]) then TrimLeft(s[1..]) else s
  }

  /** The string without its trailing whitespace. */
  function TrimRight(s: string): (r: string)
    ensures |r| <= |s| && r == s[..|r|]
    ensures r == [] || !IsJavaSpace(r[|r| - 1])
    ensures forall k :: |r| <= k < |s| ==> IsJavaSpace(s[k])
    decreases |s|
  {
    if s != [] && IsJavaSpace(s[|s| - 1]) then TrimRight(s[..|s| - 1]) else s
  }

  /** Collectors.joining(sep). */
  function Join(pieces: seq<string>, sep: char): string
    decreases |pieces|
  {
    if pieces == [] then ""
    else if |pieces| == 1 then pieces[0]
    else pieces[0] + [sep] + Join(pieces[1..], sep)
  }

  /** The text between commas, in order; joining them back with "," gives `s`. */
  function CommaPieces(s: string): (r: seq<string>)
    ensures |r| >= 1
    ensures forall k :: 0 <= k < |r| ==> ',' !in r[k]
    ensures Join(r, ',') == s
    decreases |s|
  {
    if ',' !in s then [s]
    else
      var i := IndexOf(s, ',');
      var rest := CommaPieces(s[i + 1..]);
      assert s == s[..i] + [','] + s[i + 1..];
      [s[..i]] + rest
  }

  /**
   * Piece i of a \s*,\s* split before trailing empties go: the whitespace
   * next to a comma belongs to the separator, so a piece loses its leading
   * whitespace when a comma precedes it and its trailing whitespace when one
   * follows it.
   */
  function TrimPiece(raw: seq<string>, i: int): string
    requires 0 <= i < |raw|
  {
    var right := if i < |raw| - 1 then TrimRight(raw[i]) else raw[i];
    if i > 0 then TrimLeft(right) else right
  }

  function DropTrailingEmpty(pieces: seq<string>): (r: seq<string>)
    ensures |r| <= |pieces| && r == pieces[..|r|]
    ensures r == [] || r[|r| - 1] != ""
    ensures forall k :: |r| <= k < |pieces| ==> pieces[k] == ""
    decreases |pieces|
  {
    if pieces == [] then []
    else if pieces[|pieces| - 1] == "" then
      var init := pieces[..|pieces| - 1];
      var r := DropTrailingEmpty(init);
      assert init[..|r|] == pieces[..|r|];
      r
    else pieces
  }

  /**
   * String.split("\\s*,\\s*"): a string without a comma comes back whole (even
   * the empty string); otherwise the trimmed pieces lose their trailing
   * empty ones.
   */
  function SplitList(s: string): seq<string>
  {
    var raw := CommaPieces(s);
    if |raw| == 1 then raw
    else DropTrailingEmpty(seq(|raw|, i requires 0 <= i < |raw| => TrimPiece(raw, i)))
  }

  /** Sonar's form of one dependency-jar entry: the absolutised path part, then the glob suffix verbatim. */
  function JarEntry(absolutize: string -> string, pattern: string): string
  {
    var globIdx := FirstGlob(pattern);
    var pathPart := if globIdx >= 0 then pattern[..globIdx] else pattern;
    var globPart := if globIdx >= 0 then pattern[globIdx..] else "";
    absolutize(pathPart) + globPart
  }

  /** The value setJavaDependencyJars stores for a non-null argument. */
  function JarList(absolutize: string -> string, s: string): string
  {
    var pieces := SplitList(s);
    Join(seq(|pieces|, i requires 0 <= i < |pieces| => JarEntry(absolutize, pieces[i])), ',')
  }

  /** The value setJavaClassDirs stores for a non-null argument. */
  function ClassDirList(absolutize: string -> string, s: string): string
  {
    var pieces := SplitList(s);
    Join(seq(|pieces|, i requires 0 <= i < |pieces| => absolutize(pieces[i])), ',')
  }

  // ---------------------------------------------------------------------------
  // Properties of the setting rewrites
  // ---------------------------------------------------------------------------

  /**
   * A pattern made of a glob-free path part and a suffix that is empty or
   * starts with a glob character becomes the absolutised path part followed
   * by the suffix, unchanged.
   */
  lemma JarEntryKeepsGlobSuffix(absolutize: string -> string, pathPart: string, globPart: string)
    requires forall k :: 0 <= k < |pathPart| ==> !IsGlobChar(pathPart[k])
    requires globPart == [] || IsGlobChar(globPart[0])
    ensures JarEntry(absolutize, pathPart + globPart) == absolutize(pathPart) + globPart
  {
    var p := pathPart + globPart;
    var g := FirstGlob(p);
    if globPart == [] {
      assert p == pathPart;
      assert g == -1;
    } else {
      assert IsGlobChar(p[|pathPart|]);
      assert forall k :: 0 <= k < |pathPart| ==> p[k] == pathPart[k];
      assert g == |pathPart|;
      assert p[..g] == pathPart && p[g..] == globPart;
    }
  }

  /** A string without a comma is not split at all. */
  lemma SplitWithoutComma(s: string)
    requires ',' !in s
    ensures SplitList(s) == [s]
  {
  }

  /** Trimming a piece keeps it comma-free. */
  lemma TrimPieceCommaFree(raw: seq<string>, i: int)
    requires 0 <= i < |raw| && ',' !in raw[i]
    ensures ',' !in TrimPiece(raw, i)
  {
    var right := if i < |raw| - 1 then TrimRight(raw[i]) else raw[i];
    assert forall c :: c in right ==> c in raw[i];
    var t := if i > 0 then TrimLeft(right) else right;
    assert forall c :: c in t ==> c in right;
  }

  /** No piece of a split holds a comma, and a split of a comma list never ends in an empty piece. */
  lemma SplitPiecesCommaFree(s: string)
    ensures var r := SplitList(s);
      && (forall k :: 0 <= k < |r| ==> ',' !in r[k])
      && (',' in s ==> r == [] || r[|r| - 1] != "")
  {
    var raw := CommaPieces(s);
    if |raw| > 1 {
      var trimmed := seq(|raw|, i requires 0 <= i < |raw| => TrimPiece(raw, i));
      forall i | 0 <= i < |raw| ensures ',' !in trimmed[i] {
        TrimPieceCommaFree(raw, i);
      }
      var r := DropTrailingEmpty(trimmed);
      assert SplitList(s) == r;
      forall k | 0 <= k < |r| ensures ',' !in r[k] {
        assert r[k] == trimmed[k];
      }
    } else {
      assert Join(raw, ',') == raw[0];
      assert SplitList(s) == [s];
    }
  }

  /** Joining comma-free pieces with "," and cutting at the commas gives the pieces back. */
  lemma {:induction false} CommaPiecesOfJoin(pieces: seq<string>)
    requires |pieces| >= 1
    requires forall k :: 0 <= k < |pieces| ==> ',' !in pieces[k]
    ensures CommaPieces(Join(pieces, ',')) == pieces
    decreases |pieces|
  {
    if |pieces| > 1 {
      var rest := pieces[1..];
      var tail := Join(rest, ',');
      var s := Join(pieces, ',');
      assert s == pieces[0] + [','] + tail;
      FirstCommaAfter(pieces[0], tail);
      assert s[|pieces[0]|] == ',';
      assert CommaPieces(s) == [pieces[0]] + CommaPieces(tail);
      CommaPiecesOfJoin(rest);
      assert pieces == [pieces[0]] + rest;
    }
  }

  /** In p + "," + t with no comma in p, the first comma is the one after p. */
  lemma FirstCommaAfter(p: string, t: string)
    requires ',' !in p
    ensures var s := p + [','] + t;
      IndexOf(s, ',') == |p| && s[..|p|] == p && s[|p| + 1..] == t
  {
    var s := p + [','] + t;
    assert s[|p|] == ',';
    assert s[..|p|] == p;
    assert s[|p| + 1..] == t;
  }


  /** Every character of `w` is whitespace. */
  predicate AllSpace(w: string)
  {
    forall k :: 0 <= k < |w| ==> IsJavaSpace(w[k])
  }

  /** A list entry a split gives back as it is: no comma, and no whitespace at either end. */
  predicate Clean(p: string)
  {
    ',' !in p && (p == [] || (!IsJavaSpace(p[0]) && !IsJavaSpace(p[|p| - 1])))
  }

  /** Leading whitespace in front of a string that starts with no whitespace is trimmed away. */
  lemma {:induction false} TrimLeftSpaces(w: string, x: string)
    requires AllSpace(w)
    requires x == [] || !IsJavaSpace(x[0])
    ensures TrimLeft(w + x) == x
    decreases |w|
  {
    if w == [] {
      assert w + x == x;
    } else {
      assert (w + x)[1..] == w[1..] + x;
      TrimLeftSpaces(w[1..], x);
    }
  }

  /** Trailing whitespace after a string that ends with no whitespace is trimmed away. */
  lemma {:induction false} TrimRightSpaces(x: string, w: string)
    requires AllSpace(w)
    requires x == [] || !IsJavaSpace(x[|x| - 1])
    ensures TrimRight(x + w) == x
    decreases |w|
  {
    if w == [] {
      assert x + w == x;
    } else {
      var n := |w| - 1;
      assert (x + w)[..|x + w| - 1] == x + w[..n];
      TrimRightSpaces(x, w[..n]);
    }
  }

  /** The entries `ps`, each written with whitespace `lead[i]` before it and `trail[i]` after it. */
  function Padded(ps: seq<string>, lead: seq<string>, trail: seq<string>): (r: seq<string>)
    requires |lead| == |ps| && |trail| == |ps|
    ensures |r| == |ps|
  {
    seq(|ps|, i requires 0 <= i < |ps| => lead[i] + ps[i] + trail[i])
  }

  /** A clean entry padded with whitespace holds no comma. */
  lemma PaddedCommaFree(lead: string, p: string, trail: string)
    requires Clean(p) && AllSpace(lead) && AllSpace(trail)
    ensures ',' !in lead + p + trail
  {
    assert !IsJavaSpace(',');
  }

  /** A padded entry between commas loses exactly the whitespace that touches a comma. */
  lemma PaddedPieceTrims(raw: seq<string>, i: nat, lead: string, p: string, trail: string)
    requires |raw| >= 2 && i < |raw| && raw[i] == lead + p + trail
    requires Clean(p) && AllSpace(lead) && AllSpace(trail)
    requires i == 0 ==> lead == []
    requires i == |raw| - 1 ==> trail == [] && p != []
    ensures TrimPiece(raw, i) == p
  {
    if i < |raw| - 1 {
      if p != [] {
        assert raw[i] == (lead + p) + trail;
        TrimRightSpaces(lead + p, trail);
        if i > 0 {
          TrimLeftSpaces(lead, p);
        } else {
          assert lead + p == p;
        }
      } else {
        assert raw[i] == [] + (lead + trail);
        assert AllSpace(lead + trail);
        TrimRightSpaces([], lead + trail);
        assert TrimLeft([]) == [];
      }
    } else {
      assert raw[i] == lead + p;
      TrimLeftSpaces(lead, p);
    }
  }

  /** Padded clean entries joined with "," cut back at the commas into the padded entries. */
  lemma PaddedJoinPieces(ps: seq<string>, lead: seq<string>, trail: seq<string>)
    requires |ps| >= 1 && |lead| == |ps| && |trail| == |ps|
    requires forall k :: 0 <= k < |ps| ==> Clean(ps[k]) && AllSpace(lead[k]) && AllSpace(trail[k])
    ensures CommaPieces(Join(Padded(ps, lead, trail), ',')) == Padded(ps, lead, trail)
  {
    var q := Padded(ps, lead, trail);
    forall k | 0 <= k < |q| ensures ',' !in q[k] {
      PaddedCommaFree(lead[k], ps[k], trail[k]);
    }
    CommaPiecesOfJoin(q);
  }

  /** A split whose comma pieces `raw` trim to `ps`, of which the last is not empty, is `ps`. */
  lemma SplitListOfTrimmed(s: string, raw: seq<string>, ps: seq<string>)
    requires CommaPieces(s) == raw
    requires |raw| >= 2 && |ps| == |raw| && ps[|ps| - 1] != []
    requires forall i :: 0 <= i < |ps| ==> TrimPiece(raw, i) == ps[i]
    ensures SplitList(s) == ps
  {
    var trimmed := seq(|raw|, i requires 0 <= i < |raw| => TrimPiece(raw, i));
    assert SplitList(s) == DropTrailingEmpty(trimmed);
    assert trimmed == ps;
  }

  /**
   * Round trip of the \s*,\s* split: clean entries joined with commas, with
   * any whitespace next to the commas, split back into exactly those
   * entries, provided there are at least two and the last one is not empty.
   */
  lemma SplitListOfPaddedJoin(ps: seq<string>, lead: seq<string>, trail: seq<string>)
    requires |ps| >= 2 && |lead| == |ps| && |trail| == |ps|
    requires forall k :: 0 <= k < |ps| ==> Clean(ps[k]) && AllSpace(lead[k]) && AllSpace(trail[k])
    requires lead[0] == [] && trail[|ps| - 1] == [] && ps[|ps| - 1] != []
    ensures SplitList(Join(Padded(ps, lead, trail), ',')) == ps
  {
    var q := Padded(ps, lead, trail);
    PaddedJoinPieces(ps, lead, trail);
    forall i | 0 <= i < |q| ensures TrimPiece(q, i) == ps[i] {
      PaddedEntryTrims(ps, lead, trail, i);
    }
    SplitListOfTrimmed(Join(q, ','), q, ps);
  }

  /** Entry i of the padded list trims back to ps[i]. */
  lemma PaddedEntryTrims(ps: seq<string>, lead: seq<string>, trail: seq<string>, i: nat)
    requires |ps| >= 2 && |lead| == |ps| && |trail| == |ps| && i < |ps|
    requires Clean(ps[i]) && AllSpace(lead[i]) && AllSpace(trail[i])
    requires lead[0] == [] && trail[|ps| - 1] == [] && ps[|ps| - 1] != []
    ensures TrimPiece(Padded(ps, lead, trail), i) == ps[i]
  {
    PaddedPieceTrims(Padded(ps, lead, trail), i, lead[i], ps[i], trail[i]);
  }

  /** Round trip without padding: clean entries joined with "," split back into themselves. */
  lemma SplitListOfJoin(ps: seq<string>)
    requires |ps| >= 2
    requires forall k :: 0 <= k < |ps| ==> Clean(ps[k])
    requires ps[|ps| - 1] != []
    ensures SplitList(Join(ps, ',')) == ps
  {
    forall k | 0 <= k < |ps| ensures ',' !in ps[k] {
      assert Clean(ps[k]);
    }
    CommaPiecesOfJoin(ps);
    forall k | 0 <= k < |ps| ensures TrimPiece(ps, k) == ps[k] {
      CleanPieceTrims(ps, k);
    }
    SplitListOfTrimmed(Join(ps, ','), ps, ps);
  }

  /** A clean piece between commas is left as it is by trimming. */
  lemma CleanPieceTrims(raw: seq<string>, i: nat)
    requires |raw| >= 2 && i < |raw| && Clean(raw[i])
    requires i == |raw| - 1 ==> raw[i] != []
    ensures TrimPiece(raw, i) == raw[i]
  {
    assert raw[i] == [] + raw[i] + [];
    assert AllSpace([]);
    PaddedPieceTrims(raw, i, [], raw[i], []);
  }


  /**
   * When no rewritten entry contains a comma, cutting the stored jar list at
   * its commas yields one entry per split piece, in the input's order.
   */
  lemma JarListPieces(absolutize: string -> string, s: string)
    requires |SplitList(s)| >= 1
    requires forall k :: 0 <= k < |SplitList(s)| ==> ',' !in JarEntry(absolutize, SplitList(s)[k])
    ensures var pieces := SplitList(s);
      CommaPieces(JarList(absolutize, s)) == seq(|pieces|, i requires 0 <= i < |pieces| => JarEntry(absolutize, pieces[i]))
  {
    var pieces := SplitList(s);
    CommaPiecesOfJoin(seq(|pieces|, i requires 0 <= i < |pieces| => JarEntry(absolutize, pieces[i])));
  }

  /** The same for the class-directory list. */
  lemma ClassDirListPieces(absolutize: string -> string, s: string)
    requires |SplitList(s)| >= 1
    requires forall k :: 0 <= k < |SplitList(s)| ==> ',' !in absolutize(SplitList(s)[k])
    ensures var pieces := SplitList(s);
      CommaPieces(ClassDirList(absolutize, s)) == seq(|pieces|, i requires 0 <= i < |pieces| => absolutize(pieces[i]))
  {
    var pieces := SplitList(s);
    CommaPiecesOfJoin(seq(|pieces|, i requires 0 <= i < |pieces| => absolutize(pieces[i])));
  }

  /** setJavaDependencyJars on clean comma-joined entries stores each entry's rewrite, joined with ",". */
  lemma JarListOfJoin(absolutize: string -> string, ps: seq<string>)
    requires |ps| >= 2
    requires forall k :: 0 <= k < |ps| ==> Clean(ps[k])
    requires ps[|ps| - 1] != []
    ensures JarList(absolutize, Join(ps, ',')) == Join(seq(|ps|, i requires 0 <= i < |ps| => JarEntry(absolutize, ps[i])), ',')
  {
    SplitListOfJoin(ps);
  }

  /** setJavaClassDirs on clean comma-joined entries stores each entry absolutised, joined with ",". */
  lemma ClassDirListOfJoin(absolutize: string -> string, ps: seq<string>)
    requires |ps| >= 2
    requires forall k :: 0 <= k < |ps| ==> Clean(ps[k])
    requires ps[|ps| - 1] != []
    ensures ClassDirList(absolutize, Join(ps, ',')) == Join(seq(|ps|, i requires 0 <= i < |ps| => absolutize(ps[i])), ',')
  {
    SplitListOfJoin(ps);
  }

  // ---------------------------------------------------------------------------
  // The module loop of scan
  // ---------------------------------------------------------------------------

  /** A source file as the scan sees it: its number of lines. */
  datatype InputFile = InputFile(lines: nat)

  /** A discovered module: its identifier and its source files. */
  datatype ProjectModule = ProjectModule(identifier: string, inputFiles: seq<InputFile>)

  datatype ScanResult = ScanResult(startMillis: int, endMillis: int, numberOfLines: int, numberOfFiles: int,
                                   cbom: seq<Component>)

  /** The stream reduce over one module's files: the sum of their line counts. */
  function FileLines(files: seq<InputFile>): nat
    decreases |files|
  {
    if files == [] then 0 else FileLines(files[..|files| - 1]) + files[|files| - 1].lines
  }

  function TotalFiles(index: seq<ProjectModule>): nat
    decreases |index|
  {
    if index == [] then 0 else TotalFiles(index[..|index| - 1]) + |index[|index| - 1].inputFiles|
  }

  function TotalLines(index: seq<ProjectModule>): nat
    decreases |index|
  {
    if index == [] then 0 else TotalLines(index[..|index| - 1]) + FileLines(index[|index| - 1].inputFiles)
  }

  /** The totals of a module list are the sums of the totals of its parts. */
  lemma {:induction false} TotalsAdd(a: seq<ProjectModule>, b: seq<ProjectModule>)
    ensures TotalFiles(a + b) == TotalFiles(a) + TotalFiles(b)
    ensures TotalLines(a + b) == TotalLines(a) + TotalLines(b)
    decreases |b|
  {
    if b == [] {
      assert a + b == a;
    } else {
      TotalsAdd(a, b[..|b| - 1]);
      assert (a + b)[..|a + b| - 1] == a + b[..|b| - 1];
    }
  }

  predicate IsDigitChar(c: char)
  {
    '0' as int <= c as int <= '9' as int
  }

  function DigitChar(d: nat): (c: char)
    requires d < 10
    ensures IsDigitChar(c) && c as int - '0' as int == d
  {
    ('0' as int + d) as char
  }

  /** The number a string of decimal digits denotes, most significant digit first. */
  function DigitsValue(s: string): nat
    requires forall k :: 0 <= k < |s| ==> IsDigitChar(s[k])
    decreases |s|
  {
    if s == [] then 0
    else
      assert IsDigitChar(s[|s| - 1]);
      DigitsValue(s[..|s| - 1]) * 10 + (s[|s| - 1] as int - '0' as int)
  }

  /**
   * The decimal form of n, as string concatenation writes an int: digits that
   * denote n, without a leading zero unless n is zero.
   */
  function Decimal(n: nat): (r: string)
    ensures |r| >= 1
    ensures forall k :: 0 <= k < |r| ==> IsDigitChar(r[k])
    ensures DigitsValue(r) == n
    ensures r[0] == '0' ==> r == "0"
    decreases n
  {
    if n < 10 then [DigitChar(n)]
    else
      var prefix := Decimal(n / 10);
      var r := prefix + [DigitChar(n % 10)];
      assert r[..|r| - 1] == prefix;
      assert prefix != "0";
      r
  }

  /** "Scanning java project <id> (<k>/<n>)". */
  function LabelText(identifier: string, k: nat, n: nat): string
  {
    "Scanning java project " + identifier + " (" + Decimal(k) + "/" + Decimal(n) + ")"
  }

  /** The LABEL messages of a complete scan over `index`, one per module, numbered from 1. */
  function Labels(index: seq<ProjectModule>): (r: seq<ProgressMessage>)
    ensures |r| == |index|
    ensures forall k :: 0 <= k < |r| ==> r[k].Label?
  {
    seq(|index|, k requires 0 <= k < |index| => Label(LabelText(index[k].identifier, k + 1, |index|)))
  }

  /** Labels carry no DETECTION, so sending them keeps the aggregator's invariant. */
  lemma LabelsKeepDetections(log: seq<ProgressMessage>, text: string)
    requires DetectionsNonEmpty(log)
    ensures DetectionsNonEmpty(log + [Label(text)])
  {
  }

  /** The LABEL messages of a log, in order. */
  function LabelsIn(log: seq<ProgressMessage>): seq<ProgressMessage>
    decreases |log|
  {
    if log == [] then []
    else LabelsIn(log[..|log| - 1]) + (if log[|log| - 1].Label? then [log[|log| - 1]] else [])
  }

  lemma {:induction false} LabelsInAppend(a: seq<ProgressMessage>, b: seq<ProgressMessage>)
    ensures LabelsIn(a + b) == LabelsIn(a) + LabelsIn(b)
    decreases |b|
  {
    if b == [] {
      assert a + b == a;
    } else {
      LabelsInAppend(a, b[..|b| - 1]);
      assert (a + b)[..|a + b| - 1] == a + b[..|b| - 1];
    }
  }

  /** One component of accept sends at most a DETECTION, and never raises ClientDisconnected. */
  lemma EmitStepSendsNoLabel(hash: HashFn, canonical: Option<string>, refuses: ProgressMessage -> bool,
                             st: EmitState, c: Component)
    ensures var st' := EmitStep(hash, canonical, refuses, st, c);
      && LabelsIn(st'.sent) == LabelsIn(st.sent)
      && (st.fault != Some(Disconnected) ==> st'.fault != Some(Disconnected))
  {
    if st.fault.None? && c.evidence.Some? {
      var d := Dedup(hash, c.name, st.seen, c.evidence.value);
      if d.kept != [] {
        var s := SanitizeComponent(canonical, CopyCryptoAsset(c).(evidence := Some(d.kept)));
        if s.completed && !refuses(Detection(s.value)) {
          LabelsInAppend(st.sent, [Detection(s.value)]);
          assert [Detection(s.value)][..0] == [];
        }
      }
    }
  }

  /** accept sends only DETECTION messages, and never raises ClientDisconnected. */
  lemma {:induction false} EmitAllSendsNoLabel(hash: HashFn, canonical: Option<string>, refuses: ProgressMessage -> bool,
                                               st: EmitState, batch: seq<Component>)
    ensures var st' := EmitAll(hash, canonical, refuses, st, batch);
      && LabelsIn(st'.sent) == LabelsIn(st.sent)
      && (st.fault != Some(Disconnected) ==> st'.fault != Some(Disconnected))
    decreases |batch|
  {
    if batch != [] {
      var mid := EmitAll(hash, canonical, refuses, st, batch[..|batch| - 1]);
      EmitAllSendsNoLabel(hash, canonical, refuses, st, batch[..|batch| - 1]);
      EmitStepSendsNoLabel(hash, canonical, refuses, mid, batch[|batch| - 1]);
    }
  }

  /** The scanner's bookkeeping as a value: ids, messages, streamed ids, escaped exception, and the store. */
  datatype ScanState = ScanState(emit: EmitState, store: seq<Component>)

  /** What a scan depends on besides the modules: the hash, the project path, the dispatcher. */
  datatype ScanEnv = ScanEnv(hash: HashFn, canonical: Option<string>, hasDispatcher: bool,
                             refuses: ProgressMessage -> bool)

  /**
   * One module of scan: its LABEL, when a dispatcher is attached (a refused one
   * escapes as ClientDisconnected), then accept of the detections the engine
   * delivers for the module. An escaped exception ends the scan.
   */
  function ModuleStep(env: ScanEnv, st: ScanState, heading: ProgressMessage, delivered: seq<Component>): ScanState
  {
    if st.emit.fault.Some? then st
    else if !env.hasDispatcher then ScanState(st.emit, st.store + delivered)
    else if env.refuses(heading) then st.(emit := st.emit.(fault := Some(Disconnected)))
    else
      var labelled := st.emit.(sent := st.emit.sent + [heading]);
      ScanState(EmitAll(env.hash, env.canonical, env.refuses, labelled, delivered), st.store + delivered)
  }

  /**
   * The first n modules of scan: module k sends the LABEL headings[k] and
   * receives the batch delivered[k].
   */
  function ScanWalk(env: ScanEnv, st: ScanState, headings: seq<ProgressMessage>, delivered: seq<seq<Component>>,
                    n: nat): ScanState
    requires |delivered| == |headings| && n <= |headings|
    decreases n
  {
    if n == 0 then st
    else ModuleStep(env, ScanWalk(env, st, headings, delivered, n - 1), headings[n - 1], delivered[n - 1])
  }

  /** Every heading is a LABEL message, as those of Labels are. */
  predicate AllLabels(headings: seq<ProgressMessage>)
  {
    forall k :: 0 <= k < |headings| ==> headings[k].Label?
  }

  /** All batches, in order. */
  function Flatten(batches: seq<seq<Component>>): seq<Component>
    decreases |batches|
  {
    if batches == [] then [] else Flatten(batches[..|batches| - 1]) + batches[|batches| - 1]
  }

  /**
   * One module without an earlier exception: it ends in ClientDisconnected
   * exactly when its LABEL is refused; otherwise the batch joins the store and
   * the module's LABEL is the only one sent.
   */
  lemma ModuleStepFacts(env: ScanEnv, st: ScanState, heading: ProgressMessage, delivered: seq<Component>)
    requires st.emit.fault.None? && heading.Label?
    ensures var st' := ModuleStep(env, st, heading, delivered);
      && (st'.emit.fault == Some(Disconnected) <==> env.hasDispatcher && env.refuses(heading))
      && (st'.emit.fault.None? ==>
            && st'.store == st.store + delivered
            && LabelsIn(st'.emit.sent) == LabelsIn(st.emit.sent) + (if env.hasDispatcher then [heading] else [])
            && (!env.hasDispatcher ==> st'.emit == st.emit))
  {
    if env.hasDispatcher && !env.refuses(heading) {
      var labelled := st.emit.(sent := st.emit.sent + [heading]);
      EmitAllSendsNoLabel(env.hash, env.canonical, env.refuses, labelled, delivered);
      LabelsInAppend(st.emit.sent, [heading]);
      assert [heading][..0] == [];
    }
  }

  /** Once an exception has escaped, later modules change nothing. */
  lemma {:induction false} ScanWalkAfterFault(env: ScanEnv, st: ScanState, headings: seq<ProgressMessage>,
                                              delivered: seq<seq<Component>>, n: nat, m: nat)
    requires |delivered| == |headings| && n <= m <= |headings|
    requires ScanWalk(env, st, headings, delivered, n).emit.fault.Some?
    ensures ScanWalk(env, st, headings, delivered, m) == ScanWalk(env, st, headings, delivered, n)
    decreases m
  {
    if m > n {
      ScanWalkAfterFault(env, st, headings, delivered, n, m - 1);
    }
  }

  /**
   * The scan keeps the aggregator's invariant, only grows the id set and only
   * appends messages and components.
   */
  lemma {:induction false} ScanWalkKeepsInv(env: ScanEnv, st: ScanState, headings: seq<ProgressMessage>,
                                            delivered: seq<seq<Component>>, n: nat)
    requires |delivered| == |headings| && n <= |headings| && AllLabels(headings)
    requires EmitInv(st.emit)
    ensures var w := ScanWalk(env, st, headings, delivered, n);
      && EmitInv(w.emit)
      && st.emit.seen <= w.emit.seen && st.emit.sent <= w.emit.sent && st.store <= w.store
    decreases n
  {
    if n > 0 {
      var prev := ScanWalk(env, st, headings, delivered, n - 1);
      ScanWalkKeepsInv(env, st, headings, delivered, n - 1);
      if prev.emit.fault.None? && env.hasDispatcher && !env.refuses(headings[n - 1]) {
        var labelled := prev.emit.(sent := prev.emit.sent + [headings[n - 1]]);
        LabelsKeepDetections(prev.emit.sent, headings[n - 1].text);
        EmitAllKeepsInv(env.hash, env.canonical, env.refuses, labelled, delivered[n - 1]);
      }
    }
  }

  /**
   * A scan that no exception escaped has appended every delivered batch to
   * the store, in module order.
   */
  lemma {:induction false} ScanWalkStore(env: ScanEnv, st: ScanState, headings: seq<ProgressMessage>,
                                         delivered: seq<seq<Component>>, n: nat)
    requires |delivered| == |headings| && n <= |headings| && AllLabels(headings)
    requires st.emit.fault.None?
    requires ScanWalk(env, st, headings, delivered, n).emit.fault.None?
    ensures ScanWalk(env, st, headings, delivered, n).store == st.store + Flatten(delivered[..n])
    decreases n
  {
    if n == 0 {
      assert delivered[..0] == [];
      assert st.store + [] == st.store;
    } else {
      var prev := ScanWalk(env, st, headings, delivered, n - 1);
      var w := ScanWalk(env, st, headings, delivered, n);
      assert w == ModuleStep(env, prev, headings[n - 1], delivered[n - 1]);
      assert prev.emit.fault.None?;
      assert w.store == prev.store + delivered[n - 1];
      ScanWalkStore(env, st, headings, delivered, n - 1);
      assert delivered[..n][..n - 1] == delivered[..n - 1];
      assert Flatten(delivered[..n]) == Flatten(delivered[..n - 1]) + delivered[n - 1];
    }
  }

  /**
   * A scan that no exception escaped has sent the LABEL of every module, in
   * module order, when a dispatcher is attached; without one it sends nothing
   * and records no id.
   */
  lemma {:induction false} ScanWalkLabels(env: ScanEnv, st: ScanState, headings: seq<ProgressMessage>,
                                          delivered: seq<seq<Component>>, n: nat)
    requires |delivered| == |headings| && n <= |headings| && AllLabels(headings)
    requires st.emit.fault.None?
    requires ScanWalk(env, st, headings, delivered, n).emit.fault.None?
    ensures var w := ScanWalk(env, st, headings, delivered, n);
      && LabelsIn(w.emit.sent) == LabelsIn(st.emit.sent) + (if env.hasDispatcher then headings[..n] else [])
      && (!env.hasDispatcher ==> w.emit == st.emit)
    decreases n
  {
    if n > 0 {
      var prev := ScanWalk(env, st, headings, delivered, n - 1);
      var heading := headings[n - 1];
      assert prev.emit.fault.None?;
      var w := ScanWalk(env, st, headings, delivered, n);
      assert w == ModuleStep(env, prev, heading, delivered[n - 1]);
      ScanWalkLabels(env, st, headings, delivered, n - 1);
      ModuleStepFacts(env, prev, heading, delivered[n - 1]);
      if env.hasDispatcher {
        assert headings[..n] == headings[..n - 1] + [heading];
      } else {
        assert w.emit == prev.emit;
      }
    }
  }

  /**
   * A scan ends with ClientDisconnected exactly at the first LABEL the
   * dispatcher refuses: every earlier LABEL was accepted.
   */
  lemma {:induction false} ScanWalkDisconnected(env: ScanEnv, st: ScanState, headings: seq<ProgressMessage>,
                                                delivered: seq<seq<Component>>, n: nat)
    requires |delivered| == |headings| && n <= |headings| && AllLabels(headings)
    requires st.emit.fault.None?
    ensures var w := ScanWalk(env, st, headings, delivered, n);
      && (w.emit.fault.None? && env.hasDispatcher ==>
            forall j :: 0 <= j < n ==> !env.refuses(headings[j]))
      && (w.emit.fault == Some(Disconnected) ==>
            && env.hasDispatcher
            && exists k :: 0 <= k < n && env.refuses(headings[k]) &&
                 forall j :: 0 <= j < k ==> !env.refuses(headings[j]))
    decreases n
  {
    if n > 0 {
      var prev := ScanWalk(env, st, headings, delivered, n - 1);
      var w := ScanWalk(env, st, headings, delivered, n);
      ScanWalkDisconnected(env, st, headings, delivered, n - 1);
      if prev.emit.fault.Some? {
        assert w == prev;
      } else {
        ModuleStepFacts(env, prev, headings[n - 1], delivered[n - 1]);
        if env.hasDispatcher {
          assert forall j :: 0 <= j < n - 1 ==> !env.refuses(headings[j]);
          if w.emit.fault == Some(Disconnected) {
            assert env.refuses(headings[n - 1]);
            assert 0 <= n - 1 < n && env.refuses(headings[n - 1]) &&
                   forall j :: 0 <= j < n - 1 ==> !env.refuses(headings[j]);
          }
        }
      }
    }
  }

  /** The Java scanner: its settings, and the scanner bookkeeping it extends. */
  class JavaScannerService {
    const service: ScannerService
    /** Paths.get(p).toAbsolutePath().normalize().toString(), against the process's working directory. */
    const absolutize: string -> string
    var javaDependencyJars: Option<string>
    var targetClassDirectories: Option<string>
    var requireBuild: bool

    constructor (hash: HashFn, hasDispatcher: bool, projectDirectory: string,
                 canonicalPath: string -> Option<string>, absolutize: string -> string)
      ensures fresh(service) && service.Valid()
      ensures service.hash == hash && service.hasDispatcher == hasDispatcher
      ensures service.projectDirectory == projectDirectory && service.canonicalPath == canonicalPath
      ensures service.findings == {} && service.store == [] && service.sent == []
      ensures this.absolutize == absolutize
      ensures javaDependencyJars.None? && targetClassDirectories.None? && requireBuild
    {
      service := new ScannerService(hash, hasDispatcher, projectDirectory, canonicalPath);
      this.absolutize := absolutize;
      javaDependencyJars := None;
      targetClassDirectories := None;
      requireBuild := true;
    }

    function GetJavaDependencyJars(): Option<string>
      reads this
    {
      javaDependencyJars
    }

    function GetJavaClassDirs(): Option<string>
      reads this
    {
      targetClassDirectories
    }

    function GetRequireBuild(): bool
      reads this
    {
      requireBuild
    }

    /** setJavaDependencyJars: null stays null; a list is split, each entry rewritten, and joined again. */
    method SetJavaDependencyJars(jars: Option<string>)
      modifies this`javaDependencyJars
      ensures javaDependencyJars == (if jars.None? then None else Some(JarList(absolutize, jars.value)))
      ensures GetJavaDependencyJars() == javaDependencyJars
    {
      if jars.None? {
        javaDependencyJars := None;
      } else {
        javaDependencyJars := Some(JarList(absolutize, jars.value));
      }
    }

    /** setJavaClassDirs: null stays null; each listed directory is absolutised. */
    method SetJavaClassDirs(dirs: Option<string>)
      modifies this`targetClassDirectories
      ensures targetClassDirectories == (if dirs.None? then None else Some(ClassDirList(absolutize, dirs.value)))
      ensures GetJavaClassDirs() == targetClassDirectories
    {
      if dirs.None? {
        targetClassDirectories := None;
      } else {
        targetClassDirectories := Some(ClassDirList(absolutize, dirs.value));
      }
    }

    method SetRequireBuild(requireBuild: bool)
      modifies this`requireBuild
      ensures this.requireBuild == requireBuild && GetRequireBuild() == requireBuild
    {
      this.requireBuild := requireBuild;
    }

    /**
     * One module of scan after its counts: send its LABEL when a dispatcher
     * is attached (a refusal escapes as ClientDisconnected), then hand the
     * engine's detections for the module to accept.
     */
    method ScanModule(heading: ProgressMessage, batch: seq<Component>, refuses: ProgressMessage -> bool)
      returns (fault: Option<Fault>)
      requires heading.Label? && service.Valid()
      modifies service
      ensures service.Valid()
      ensures ModuleStep(ScanEnv(service.hash, service.Canonical(), service.hasDispatcher, refuses),
                         ScanState(EmitState(old(service.findings), old(service.sent), old(service.emitted), None),
                                   old(service.store)),
                         heading, batch)
           == ScanState(EmitState(service.findings, service.sent, service.emitted, fault), service.store)
    {
      if service.hasDispatcher && refuses(heading) {
        return Some(Disconnected);
      }
      if service.hasDispatcher {
        LabelsKeepDetections(service.sent, heading.text);
        service.sent := service.sent + [heading];
      }
      fault := service.Accept(batch, refuses);
    }

    /**
     * scan around the analysis engine: per module, count files and lines,
     * send the module's LABEL when a dispatcher is attached, and hand the
     * detections the engine delivers for the module (`delivered`, one batch
     * per module) to accept; finish with getBOM. An exception from a send
     * or from accept escapes.
     */
    method Scan(index: seq<ProjectModule>, delivered: seq<seq<Component>>, refuses: ProgressMessage -> bool,
                startMillis: int, endMillis: int) returns (r: Outcome<ScanResult>)
      requires |delivered| == |index|
      requires service.Valid()
      modifies service
      ensures service.Valid()
      ensures var env := ScanEnv(service.hash, service.Canonical(), service.hasDispatcher, refuses);
        var st := ScanState(EmitState(old(service.findings), old(service.sent), old(service.emitted), None),
                            old(service.store));
        var w := ScanWalk(env, st, Labels(index), delivered, |index|);
        && service.findings == w.emit.seen && service.sent == w.emit.sent && service.emitted == w.emit.emitted
        && (w.emit.fault.Some? ==> r == Thrown(w.emit.fault.value) && service.store == w.store)
        && (w.emit.fault.None? ==>
              var s := SanitizeStore(service.Canonical(), w.store);
              && service.store == s.value
              && (s.completed ==> r == Ok(ScanResult(startMillis, endMillis, TotalLines(index), TotalFiles(index),
                                                     service.store)))
              && (!s.completed ==> r == Thrown(IndexOutOfRange)))
    {
      ghost var env := ScanEnv(service.hash, service.Canonical(), service.hasDispatcher, refuses);
      ghost var st0 := ScanState(EmitState(service.findings, service.sent, service.emitted, None), service.store);
      var counter := 1;
      var numberOfScannedLines := 0;
      var numberOfScannedFiles := 0;
      var fault: Option<Fault> := None;
      var i := 0;
      while i < |index| && fault.None?
        invariant 0 <= i <= |index| && counter == i + 1
        invariant numberOfScannedFiles == TotalFiles(index[..i])
        invariant numberOfScannedLines == TotalLines(index[..i])
        invariant ScanWalk(env, st0, Labels(index), delivered, i)
               == ScanState(EmitState(service.findings, service.sent, service.emitted, fault), service.store)
        invariant service.Valid()
      {
        var project := index[i];
        assert index[..i + 1] == index[..i] + [project];
        TotalsAdd(index[..i], [project]);
        assert TotalFiles([project]) == |project.inputFiles| && TotalLines([project]) == FileLines(project.inputFiles);
        numberOfScannedFiles := numberOfScannedFiles + |project.inputFiles|;
        numberOfScannedLines := numberOfScannedLines + FileLines(project.inputFiles);
        var message := Label(LabelText(project.identifier, counter, |index|));
        assert message == Labels(index)[i];
        fault := ScanModule(message, delivered[i], refuses);
        counter := counter + 1;
        i := i + 1;
      }
      if fault.Some? {
        ScanWalkAfterFault(env, st0, Labels(index), delivered, i, |index|);
        return Thrown(fault.value);
      }
      assert index[..i] == index;
      var bom := service.GetBom();
      if bom.Thrown? {
        return Thrown(bom.fault);
      }
      return Ok(ScanResult(startMillis, endMillis, numberOfScannedLines, numberOfScannedFiles, bom.value));
    }
  }
}

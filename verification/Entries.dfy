/** What the reader and the editor of default apps do, told by the lines of the file alone. */
module Entries {
  import opened Common
  import opened Defaults

  // ---------------------------------------------------------------------
  // Pieces of text
  // ---------------------------------------------------------------------

  /** The code points Unicode gives the property White_Space. */
  const WHITE_SPACE: set<int> := {
    0x9, 0xA, 0xB, 0xC, 0xD, 0x20, 0x85, 0xA0, 0x1680, 0x2000, 0x2001, 0x2002, 0x2003, 0x2004, 0x2005, 0x2006,
    0x2007, 0x2008, 0x2009, 0x200A, 0x2028, 0x2029, 0x202F, 0x205F, 0x3000}

  lemma SpacesAreWhiteSpace(c: char)
    ensures IsSpace(c) <==> c as int in WHITE_SPACE
  {
  }

  ghost predicate Solid(s: string)
  {
    s == [] || (!IsSpace(s[0]) && !IsSpace(s[|s| - 1]))
  }

  /** `t` is `s` without the blanks around it. */
  ghost predicate IsTrimmed(s: string, t: string)
  {
    Solid(t) && exists a, b :: AllSpace(a) && AllSpace(b) && s == a + t + b
  }

  lemma {:induction false} TrimStartIs(s: string) returns (a: string)
    ensures AllSpace(a) && s == a + TrimStart(s) && (TrimStart(s) == [] || !IsSpace(TrimStart(s)[0]))
  {
    hide IsSpace;
    if s != [] && IsSpace(s[0]) {
      var rest := TrimStartIs(s[1..]);
      a := [s[0]] + rest;
      assert s == [s[0]] + s[1..];
    } else {
      a := [];
    }
  }

  lemma {:induction false} TrimEndIs(s: string) returns (b: string)
    ensures AllSpace(b) && s == TrimEnd(s) + b && TrimEnd(s) <= s
    ensures TrimEnd(s) == [] || !IsSpace(TrimEnd(s)[|TrimEnd(s)| - 1])
  {
    hide IsSpace, AllSpace;
    if s != [] && IsSpace(s[|s| - 1]) {
      var n := |s| - 1;
      var rest := TrimEndIs(s[..n]);
      b := rest + [s[n]];
      OneMoreBlank(rest, s[n]);
      var t := TrimEnd(s[..n]);
      assert t + (rest + [s[n]]) == (t + rest) + [s[n]] == s[..n] + [s[n]] == s;
      assert TrimEnd(s) == t;
    } else {
      b := [];
      NoBlanks();
    }
  }

  lemma OneMoreBlank(s: string, c: char)
    requires AllSpace(s) && IsSpace(c)
    ensures AllSpace(s + [c])
  {
    hide IsSpace;
  }

  lemma NoBlanks()
    ensures AllSpace([])
  {
  }

  /** Trimming takes the blanks off both ends and nothing else. */
  lemma TrimIs(s: string)
    ensures IsTrimmed(s, Trim(s))
  {
    var a := TrimStartIs(s);
    var t := TrimStart(s);
    var b := TrimEndIs(t);
    hide TrimStart, TrimEnd;
    assert s == a + Trim(s) + b;
  }

  /** A line is cut at its first equals sign. */
  ghost predicate IsCut(s: string, k: string, v: string)
  {
    s == k + "=" + v && '=' !in k
  }

  lemma {:induction false} SplitIs(s: string)
    ensures match SplitOnce(s)
            case Some((k, v)) => IsCut(s, k, v)
            case None => '=' !in s
  {
    if s != [] && s[0] != '=' {
      SplitIs(s[1..]);
      assert s == [s[0]] + s[1..];
      match SplitOnce(s[1..]) {
        case Some((k, v)) => assert [s[0]] + (k + "=" + v) == [s[0]] + k + "=" + v;
        case None =>
      }
    } else if s != [] {
      assert s == [] + "=" + s[1..];
    }
  }

  lemma SplitExactly(s: string, k: string, v: string)
    ensures SplitOnce(s) == Some((k, v)) <==> IsCut(s, k, v)
  {
    SplitIs(s);
    if IsCut(s, k, v) {
      SplitAtFirst(k, v);
    }
  }

  ghost predicate BlankOrSeparator(s: string)
  {
    forall i :: 0 <= i < |s| ==> IsSpace(s[i]) || s[i] == ';'
  }

  /** `v` is blank pieces, each ended by a semicolon, then a piece that trims to `app`. */
  ghost predicate Leads(v: string, blanks: string, piece: string, rest: string, app: string)
  {
    && v == blanks + piece + rest
    && BlankOrSeparator(blanks) && (blanks == [] || blanks[|blanks| - 1] == ';')
    && ';' !in piece && (rest == [] || rest[0] == ';')
    && app != [] && IsTrimmed(piece, app)
  }

  ghost predicate FirstOf(v: string, app: string)
  {
    exists blanks, piece, rest :: Leads(v, blanks, piece, rest, app)
  }

  lemma {:induction false} TrimStartOf(a: string, t: string)
    requires AllSpace(a) && (t == [] || !IsSpace(t[0]))
    ensures TrimStart(a + t) == t
  {
    if a == [] {
      assert a + t == t;
    } else {
      assert (a + t)[1..] == a[1..] + t;
      TrimStartOf(a[1..], t);
    }
  }

  lemma {:induction false} TrimEndOf(t: string, b: string)
    requires AllSpace(b) && (t == [] || !IsSpace(t[|t| - 1]))
    ensures TrimEnd(t + b) == t
  {
    if b == [] {
      assert t + b == t;
    } else {
      var n := |b| - 1;
      assert (t + b)[..|t| + n] == t + b[..n];
      TrimEndOf(t, b[..n]);
    }
  }

  lemma TrimOfBlank(s: string)
    requires AllSpace(s)
    ensures Trim(s) == []
  {
    TrimStartOf(s, []);
    assert s + [] == s;
  }

  /** What a text trims to is one. */
  lemma TrimmedIsTrim(s: string, t: string)
    requires IsTrimmed(s, t)
    ensures Trim(s) == t
  {
    hide IsSpace, TrimStart, TrimEnd;
    var a, b :| AllSpace(a) && AllSpace(b) && s == a + t + b;
    if t == [] {
      assert AllSpace(s);
      TrimOfBlank(s);
    } else {
      assert s == a + (t + b);
      TrimStartOf(a, t + b);
      TrimEndOf(t, b);
    }
  }

  /** A value that is not blank starts so at its first piece, or after a blank one. */
  lemma {:induction false} FirstValueLeads(v: string)
    ensures match FirstValue(v)
            case Some(app) => FirstOf(v, app)
            case None => BlankOrSeparator(v)
    decreases |v|
  {
    hide IsSpace, IndexOf, FirstOf, BlankOrSeparator, Trim;
    var k := IndexOf(v, ';');
    if Trim(v[..k]) != [] {
      FirstPieceLeads(v);
    } else if k < |v| {
      FirstValueLeads(v[k + 1..]);
      BlankPieceLeads(v);
    } else {
      BlankTrims(v[..k]);
      assert v[..k] == v;
      AllBlank(v);
    }
  }

  lemma AllBlank(v: string)
    requires AllSpace(v)
    ensures BlankOrSeparator(v)
  {
  }

  lemma FirstPieceLeads(v: string)
    requires Trim(v[..IndexOf(v, ';')]) != []
    ensures FirstOf(v, Trim(v[..IndexOf(v, ';')]))
  {
    hide IsSpace, IsTrimmed;
    var k := IndexOf(v, ';');
    PieceHasNone(v, ';');
    TrimIs(v[..k]);
    assert v == [] + v[..k] + v[k..];
    assert Leads(v, [], v[..k], v[k..], Trim(v[..k]));
  }

  /** After a blank piece comes what comes in the rest. */
  lemma BlankPieceLeads(v: string)
    requires var k := IndexOf(v, ';'); k < |v| && Trim(v[..k]) == []
    ensures var rest := v[IndexOf(v, ';') + 1..];
            && (forall app :: FirstOf(rest, app) ==> FirstOf(v, app))
            && (BlankOrSeparator(rest) ==> BlankOrSeparator(v))
  {
    var k := IndexOf(v, ';');
    var front, rest := v[..k] + [';'], v[k + 1..];
    BlankTrims(v[..k]);
    hide IsSpace, IsTrimmed;
    assert v == front + rest && BlankOrSeparator(front);
    forall app | FirstOf(rest, app) ensures FirstOf(v, app) {
      var blanks, first, last :| Leads(rest, blanks, first, last, app);
      LeadsAfter(front, rest, blanks, first, last, app);
    }
  }

  lemma PieceHasNone(v: string, c: char)
    ensures c !in v[..IndexOf(v, c)]
  {
    NotInFront(v, c);
  }

  lemma BlankTrims(s: string)
    requires Trim(s) == []
    ensures AllSpace(s)
  {
    TrimIs(s);
    var a, b :| AllSpace(a) && AllSpace(b) && s == a + Trim(s) + b;
    assert s == a + b;
  }

  lemma LeadsAfter(front: string, v: string, blanks: string, piece: string, rest: string, app: string)
    requires Leads(v, blanks, piece, rest, app) && BlankOrSeparator(front) && front != [] && front[|front| - 1] == ';'
    ensures Leads(front + v, front + blanks, piece, rest, app)
  {
    hide IsTrimmed, IsSpace;
    assert front + (blanks + piece + rest) == (front + blanks) + piece + rest;
  }

  /** The value read is the first that is not blank. */
  lemma {:induction false} LeadingIsRead(v: string, blanks: string, piece: string, rest: string, app: string)
    requires Leads(v, blanks, piece, rest, app)
    ensures FirstValue(v) == Some(app)
    decreases |v|
  {
    hide IsSpace, IsTrimmed;
    var k := IndexOf(v, ';');
    if blanks == [] {
      assert v == piece + rest;
      EndOfPiece(piece, rest);
      assert v[..k] == piece;
      TrimmedIsTrim(piece, app);
    } else {
      var n := IndexOf(blanks, ';');
      FrontOfBlanks(blanks);
      assert v[n] == blanks[n] == ';';
      assert forall i :: 0 <= i < n ==> v[i] == blanks[i];
      assert k == n && v[..k] == blanks[..n];
      TrimOfBlank(blanks[..n]);
      var less := blanks[n + 1..];
      assert v[k + 1..] == less + piece + rest;
      LeadingIsRead(v[k + 1..], less, piece, rest, app);
    }
  }

  lemma EndOfPiece(piece: string, rest: string)
    requires ';' !in piece && (rest == [] || rest[0] == ';')
    ensures IndexOf(piece + rest, ';') == |piece|
  {
    var v := piece + rest;
    var k := IndexOf(v, ';');
    assert forall i :: 0 <= i < |piece| ==> v[i] == piece[i] && piece[i] in piece;
    assert rest != [] ==> v[|piece|] == ';';
  }

  lemma FrontOfBlanks(blanks: string)
    requires BlankOrSeparator(blanks) && blanks != [] && blanks[|blanks| - 1] == ';'
    ensures var n := IndexOf(blanks, ';');
            && n < |blanks| && AllSpace(blanks[..n]) && BlankOrSeparator(blanks[n + 1..])
            && (blanks[n + 1..] == [] || blanks[n + 1..][|blanks[n + 1..]| - 1] == ';')
  {
  }

  lemma FirstValueExactly(v: string, app: string)
    ensures FirstValue(v) == Some(app) <==> FirstOf(v, app)
  {
    FirstValueLeads(v);
    if FirstOf(v, app) {
      var blanks, piece, rest :| Leads(v, blanks, piece, rest, app);
      LeadingIsRead(v, blanks, piece, rest, app);
    }
  }

  /** Every text is lines that each end in a newline, then what comes after the last; a line loses
      the carriage return before its newline, and nothing else is lost. */
  lemma {:induction false} LinesAre(ls: seq<string>, last: string)
    requires NoNewlines(ls) && '\n' !in last
    ensures Lines(Join(ls) + last) == StripAll(ls) + if last == [] then [] else [last]
  {
    hide IndexOf;
    if ls == [] {
      assert [] + last == last;
      if last != [] {
        assert IndexOf(last, '\n') == |last| by { assert IndexOf(last, '\n') < |last| ==> '\n' in last; }
      }
    } else {
      var rest := Join(ls[1..]) + last;
      var text := ls[0] + ['\n'] + rest;
      assert Join(ls) + last == text;
      IndexOfAppend(ls[0], '\n', rest);
      assert text[..|ls[0]|] == ls[0] && text[|ls[0]| + 1..] == rest;
      LinesAre(ls[1..], last);
    }
  }

  // ---------------------------------------------------------------------
  // Which line is read
  // ---------------------------------------------------------------------

  ghost predicate NoSection(ls: seq<string>, from: nat, to: nat)
    requires from <= to <= |ls|
  {
    forall i :: from <= i < to ==> !IsSection(ls[i])
  }

  ghost predicate IsHeader(line: string)
  {
    Trim(line) == HEADER
  }

  /** The last section that starts before line `i` is that of the defaults; where none does, the
      lines come after `inside` of it or not. */
  ghost predicate InDefaults(ls: seq<string>, i: nat, inside: bool)
    requires i <= |ls|
  {
    || (exists h :: 0 <= h < i && IsHeader(ls[h]) && NoSection(ls, h + 1, i))
    || (inside && NoSection(ls, 0, i))
  }

  /** The line gives `mime` a value. */
  ghost predicate Names(line: string, mime: string)
  {
    exists k, v :: IsCut(Trim(line), k, v) && IsTrimmed(k, mime)
  }

  ghost predicate EntryAt(ls: seq<string>, i: nat, mime: string, inside: bool)
    requires i < |ls|
  {
    InDefaults(ls, i, inside) && !IsSection(ls[i]) && Names(ls[i], mime)
  }

  lemma HeaderIsSection(line: string)
    ensures IsHeader(line) ==> IsSection(line)
  {
  }

  lemma NoSectionStep(line: string, rest: seq<string>, from: nat, to: nat)
    requires from <= to <= |rest|
    ensures NoSection([line] + rest, from + 1, to + 1) <==> NoSection(rest, from, to)
    ensures NoSection([line] + rest, 0, to + 1) <==> !IsSection(line) && NoSection(rest, 0, to)
  {
    hide IsSection;
    var ls := [line] + rest;
    assert forall j :: 0 <= j < |rest| ==> ls[j + 1] == rest[j];
    if NoSection(ls, 0, to + 1) {
      assert ls[0] == line;
      forall j | 0 <= j < to ensures !IsSection(rest[j]) { assert ls[j + 1] == rest[j]; }
    }
    if NoSection(rest, from, to) {
      forall j | from + 1 <= j < to + 1 ensures !IsSection(ls[j]) { assert ls[j] == rest[j - 1]; }
    }
    if !IsSection(line) && NoSection(rest, 0, to) {
      forall j | 0 <= j < to + 1 ensures !IsSection(ls[j]) { assert j > 0 ==> ls[j] == rest[j - 1]; }
    }
  }

  lemma InDefaultsOn(line: string, rest: seq<string>, i: nat, inside: bool)
    requires i <= |rest| && InDefaults([line] + rest, i + 1, inside)
    ensures InDefaults(rest, i, Inside(line, inside))
  {
    HeaderIsSection(line);
    hide NoSection;
    var ls := [line] + rest;
    NoSectionStep(line, rest, 0, i);
    if h :| 0 <= h < i + 1 && IsHeader(ls[h]) && NoSection(ls, h + 1, i + 1) {
      NoSectionStep(line, rest, h, i);
      assert h > 0 ==> ls[h] == rest[h - 1];
      hide Trim;
    }
  }

  lemma InDefaultsBack(line: string, rest: seq<string>, i: nat, inside: bool)
    requires i <= |rest| && InDefaults(rest, i, Inside(line, inside))
    ensures InDefaults([line] + rest, i + 1, inside)
  {
    HeaderIsSection(line);
    hide NoSection;
    var ls := [line] + rest;
    NoSectionStep(line, rest, 0, i);
    if h :| 0 <= h < i && IsHeader(rest[h]) && NoSection(rest, h + 1, i) {
      NoSectionStep(line, rest, h + 1, i);
      assert ls[h + 1] == rest[h];
    } else if IsSection(line) {
      assert IsHeader(ls[0]);
    }
  }

  lemma InDefaultsStep(line: string, rest: seq<string>, i: nat, inside: bool)
    requires i <= |rest|
    ensures InDefaults([line] + rest, i + 1, inside) <==> InDefaults(rest, i, Inside(line, inside))
  {
    hide InDefaults, Inside;
    if InDefaults([line] + rest, i + 1, inside) {
      InDefaultsOn(line, rest, i, inside);
    }
    if InDefaults(rest, i, Inside(line, inside)) {
      InDefaultsBack(line, rest, i, inside);
    }
  }

  lemma NamesIsKey(line: string, mime: string)
    ensures Names(line, mime) <==> KeyOf(line) == Some(mime)
  {
    KeyOfTrimmed(line);
    SplitIs(Trim(line));
    hide Trim, SplitOnce;
    if KeyOf(line) == Some(mime) {
      var (k, v) := SplitOnce(Trim(line)).value;
      TrimIs(k);
    }
    if Names(line, mime) {
      var k, v :| IsCut(Trim(line), k, v) && IsTrimmed(k, mime);
      SplitExactly(Trim(line), k, v);
      TrimmedIsTrim(k, mime);
    }
  }

  lemma EntryStep(line: string, rest: seq<string>, mime: string, inside: bool)
    ensures EntryAt([line] + rest, 0, mime, inside) <==> Decides(line, mime, inside)
    ensures forall i: nat :: i < |rest| ==>
              (EntryAt([line] + rest, i + 1, mime, inside) <==> EntryAt(rest, i, mime, Inside(line, inside)))
  {
    hide IsSection, Inside, Names, KeyOf;
    NamesIsKey(line, mime);
    assert InDefaults([line] + rest, 0, inside) <==> inside;
    forall i: nat | i < |rest|
      ensures EntryAt([line] + rest, i + 1, mime, inside) <==> EntryAt(rest, i, mime, Inside(line, inside))
    {
      InDefaultsStep(line, rest, i, inside);
    }
  }

  /** The first line there that names `mime`. */
  ghost predicate FirstEntry(ls: seq<string>, i: nat, mime: string, inside: bool)
    requires i < |ls|
  {
    EntryAt(ls, i, mime, inside) && forall j :: 0 <= j < i ==> !EntryAt(ls, j, mime, inside)
  }

  lemma {:induction false} ReaderFinds(ls: seq<string>, mime: string, inside: bool)
    ensures (forall i :: 0 <= i < |ls| ==> !EntryAt(ls, i, mime, inside)) ==> DefaultFrom(ls, mime, inside) == None
    ensures forall i :: 0 <= i < |ls| && FirstEntry(ls, i, mime, inside) ==>
              DefaultFrom(ls, mime, inside) == ValueOf(ls[i])
  {
    if ls != [] {
      var line, rest := ls[0], ls[1..];
      assert ls == [line] + rest;
      var next := Inside(line, inside);
      ReaderFinds(rest, mime, next);
      ReaderStep(line, rest, mime, inside);
      EntryStep(line, rest, mime, inside);
      hide DefaultFrom, ValueOf, EntryAt, Decides, Inside;
      if !Decides(line, mime, inside) {
        if forall i :: 0 <= i < |ls| ==> !EntryAt(ls, i, mime, inside) {
          forall i: nat | i < |rest| ensures !EntryAt(rest, i, mime, next) {
            assert !EntryAt(ls, i + 1, mime, inside);
          }
        }
        forall i | 0 <= i < |ls| && FirstEntry(ls, i, mime, inside) ensures FirstEntry(rest, i - 1, mime, next) {
          forall j: nat | j < i - 1 ensures !EntryAt(rest, j, mime, next) {
            assert !EntryAt(ls, j + 1, mime, inside);
          }
        }
      }
    }
  }

  lemma {:induction false} SomeEntryIsFirst(ls: seq<string>, n: nat, mime: string) returns (i: nat)
    requires n < |ls| && EntryAt(ls, n, mime, false)
    ensures i < |ls| && FirstEntry(ls, i, mime, false)
    decreases n
  {
    hide EntryAt;
    if m: nat :| m < n && EntryAt(ls, m, mime, false) {
      i := SomeEntryIsFirst(ls, m, mime);
    } else {
      i := n;
    }
  }

  /** The line gives, as the first that is not blank of its values, the app. */
  ghost predicate Gives(line: string, app: string)
  {
    exists k, v :: IsCut(Trim(line), k, v) && FirstOf(v, app)
  }

  lemma GivesIsValue(line: string, app: string)
    ensures ValueOf(line) == Some(app) <==> Gives(line, app)
  {
    hide Trim, FirstValue, FirstOf;
    SplitIs(Trim(line));
    if ValueOf(line) == Some(app) {
      var (k, v) := SplitOnce(Trim(line)).value;
      FirstValueExactly(v, app);
    }
    if Gives(line, app) {
      var k, v :| IsCut(Trim(line), k, v) && FirstOf(v, app);
      SplitExactly(Trim(line), k, v);
      FirstValueExactly(v, app);
    }
  }

  /** Line `i` is the first of a default section that names the type, and gives the app. */
  ghost predicate DecidesFor(ls: seq<string>, i: nat, mime: string, app: string)
  {
    i < |ls| && FirstEntry(ls, i, mime, false) && Gives(ls[i], app)
  }

  lemma DecidingLineIsRead(ls: seq<string>, i: nat, mime: string, app: string)
    requires DecidesFor(ls, i, mime, app)
    ensures DefaultFrom(ls, mime, false) == Some(app)
  {
    hide EntryAt, Gives, ValueOf, DefaultFrom;
    ReaderFinds(ls, mime, false);
    GivesIsValue(ls[i], app);
  }

  lemma ReadLineDecides(ls: seq<string>, mime: string, app: string) returns (i: nat)
    requires DefaultFrom(ls, mime, false) == Some(app)
    ensures DecidesFor(ls, i, mime, app)
  {
    hide EntryAt, Gives, ValueOf, DefaultFrom;
    ReaderFinds(ls, mime, false);
    var n :| 0 <= n < |ls| && EntryAt(ls, n, mime, false);
    i := SomeEntryIsFirst(ls, n, mime);
    GivesIsValue(ls[i], app);
  }

  lemma DecidedByTheFirst(ls: seq<string>, mime: string, app: string)
    ensures DefaultFrom(ls, mime, false) == Some(app) <==> exists i: nat :: DecidesFor(ls, i, mime, app)
  {
    hide DecidesFor, DefaultFrom;
    if DefaultFrom(ls, mime, false) == Some(app) {
      var i := ReadLineDecides(ls, mime, app);
    }
    if i: nat :| DecidesFor(ls, i, mime, app) {
      DecidingLineIsRead(ls, i, mime, app);
    }
  }

  /** In every text the default read for a type is an app exactly when the first line of a default
      section that names the type gives that app first. */
  lemma ReadsTheFirstEntry(text: string, ls: seq<string>, mime: string, app: string)
    requires ls == Lines(text)
    ensures DefaultIn(text, mime) == Some(app) <==> exists i: nat :: DecidesFor(ls, i, mime, app)
  {
    DecidedByTheFirst(ls, mime, app);
  }

  // ---------------------------------------------------------------------
  // Where the entry is written
  // ---------------------------------------------------------------------

  /** At this line an edit writes the entry: it names the type, or the section ends there. */
  ghost predicate WritesAt(ls: seq<string>, i: nat, mime: string, inside: bool)
    requires i < |ls|
  {
    InDefaults(ls, i, inside) && (IsSection(ls[i]) || Names(ls[i], mime))
  }

  /** The first such line, or the end. */
  ghost predicate IsPlace(ls: seq<string>, p: nat, mime: string, inside: bool)
  {
    && p <= |ls| && (p < |ls| ==> WritesAt(ls, p, mime, inside))
    && forall i :: 0 <= i < p ==> !WritesAt(ls, i, mime, inside)
  }

  lemma {:induction false} OnceWritten(ls: seq<string>, mime: string, app: string, inside: bool)
    ensures SetFrom(ls, mime, app, Edit(inside, true, true)) == Kept(ls, mime, inside)
  {
    if ls != [] {
      OursDecides(ls[0], mime, inside);
      hide Ours, Decides, Inside, EntryFor, IsSection;
      OnceWritten(ls[1..], mime, app, Inside(ls[0], inside));
    }
  }

  lemma PlaceStep(line: string, rest: seq<string>, p: nat, mime: string, inside: bool)
    requires IsPlace([line] + rest, p, mime, inside)
    ensures p == 0 ==> inside && (IsSection(line) || Decides(line, mime, inside))
    ensures p > 0 ==>
              && !(inside && (IsSection(line) || Decides(line, mime, inside)))
              && IsPlace(rest, p - 1, mime, Inside(line, inside))
              && (InDefaults([line] + rest, p, inside) <==> InDefaults(rest, p - 1, Inside(line, inside)))
  {
    hide IsSection, Inside, Names, KeyOf;
    var ls := [line] + rest;
    NamesIsKey(line, mime);
    assert InDefaults(ls, 0, inside) <==> inside;
    forall i: nat | i <= |rest| ensures InDefaults(ls, i + 1, inside) <==> InDefaults(rest, i, Inside(line, inside)) {
      InDefaultsStep(line, rest, i, inside);
    }
    if p > 0 {
      hide InDefaults;
      assert !WritesAt(ls, 0, mime, inside);
      forall i: nat | i < p - 1 ensures !WritesAt(rest, i, mime, Inside(line, inside)) {
        assert !WritesAt(ls, i + 1, mime, inside);
      }
    }
  }

  /** What an edit makes of the lines when its entry comes first. */
  lemma EditHere(line: string, rest: seq<string>, mime: string, app: string)
    requires IsSection(line) || Decides(line, mime, true)
    ensures SetFrom([line] + rest, mime, app, Edit(true, true, false)) ==
            [EntryFor(mime, app)] + Kept([line] + rest, mime, true)
  {
    hide EntryFor, Decides, Inside, IsSection, Kept, Emitted, Advanced;
    SetStep(line, rest, mime, app, Edit(true, true, false));
    EditWrites(line, rest, mime, app, true);
    OnceWritten(rest, mime, app, Inside(line, true));
    KeptStep(line, rest, mime, true);
  }

  /** And when it comes later. */
  lemma EditOn(line: string, rest: seq<string>, mime: string, app: string, inside: bool)
    requires !(inside && (IsSection(line) || Decides(line, mime, inside)))
    ensures var next := Inside(line, inside);
            SetFrom([line] + rest, mime, app, Edit(inside, inside, false)) ==
            [line] + SetFrom(rest, mime, app, Edit(next, next, false))
  {
    hide EntryFor, Decides, Inside, IsSection, Emitted, Advanced;
    SetStep(line, rest, mime, app, Edit(inside, inside, false));
    EditPasses(line, mime, app, inside);
  }

  /** What an edit makes of the lines from before its entry is written. */
  lemma {:induction false} EditFrom(ls: seq<string>, mime: string, app: string, inside: bool, p: nat)
    requires IsPlace(ls, p, mime, inside)
    ensures SetFrom(ls, mime, app, Edit(inside, inside, false)) ==
            if inside || HasSection(ls)
            then ls[..p] + ([EntryFor(mime, app)] + Kept(ls[p..], mime, InDefaults(ls, p, inside)))
            else ls + ([HEADER] + [EntryFor(mime, app)])
  {
    hide *;
    PlaceIsThere(ls, p, mime, inside);
    if ls == [] {
      EditAtEnd(mime, app, inside);
    } else {
      var line, rest := ls[0], ls[1..];
      assert ls == [line] + rest;
      PlaceStep(line, rest, p, mime, inside);
      if p == 0 {
        AtTheFront(ls);
        EditHere(line, rest, mime, app);
        assert ls[..0] == [] && ls[0..] == ls;
      } else {
        EditFrom(rest, mime, app, Inside(line, inside), p - 1);
        EditOn(line, rest, mime, app, inside);
        SectionStep(line, rest, inside, mime);
        CutStep(line, rest, p);
        Regroup(line, rest[..p - 1], [EntryFor(mime, app)] + Kept(ls[p..], mime, InDefaults(ls, p, inside)));
        Regroup(line, rest, [HEADER] + [EntryFor(mime, app)]);
      }
    }
  }

  lemma Regroup(line: string, a: seq<string>, b: seq<string>)
    ensures [line] + (a + b) == ([line] + a) + b
  {
  }

  lemma EditAtEnd(mime: string, app: string, inside: bool)
    ensures SetFrom([], mime, app, Edit(inside, inside, false)) ==
            if inside || HasSection([])
            then [][..0] + ([EntryFor(mime, app)] + Kept([][0..], mime, InDefaults([], 0, inside)))
            else [] + ([HEADER] + [EntryFor(mime, app)])
  {
    hide EntryFor, InDefaults;
    KeptNone(mime, InDefaults([], 0, inside));
  }

  lemma PlaceIsThere(ls: seq<string>, p: nat, mime: string, inside: bool)
    requires IsPlace(ls, p, mime, inside)
    ensures p <= |ls|
  {
  }

  lemma AtTheFront(ls: seq<string>)
    ensures InDefaults(ls, 0, true)
  {
  }

  lemma EditWrites(line: string, rest: seq<string>, mime: string, app: string, inside: bool)
    requires inside && (IsSection(line) || Decides(line, mime, inside))
    ensures var e := Edit(inside, inside, false);
            && Advanced(line, mime, e) == Edit(Inside(line, inside), true, true)
            && Emitted(line, mime, app, e) ==
               [EntryFor(mime, app)] + if Decides(line, mime, inside) then [] else [line]
  {
    OursDecides(line, mime, inside);
    hide EntryFor, KeyOf, Trim;
  }

  lemma EditPasses(line: string, mime: string, app: string, inside: bool)
    requires !(inside && (IsSection(line) || Decides(line, mime, inside)))
    ensures var e, next := Edit(inside, inside, false), Inside(line, inside);
            Advanced(line, mime, e) == Edit(next, next, false) && Emitted(line, mime, app, e) == [line]
  {
    OursDecides(line, mime, inside);
    hide EntryFor, KeyOf, Trim, Ours;
  }

  lemma SectionStep(line: string, rest: seq<string>, inside: bool, mime: string)
    requires !(inside && (IsSection(line) || Decides(line, mime, inside)))
    ensures inside || HasSection([line] + rest) <==> Inside(line, inside) || HasSection(rest)
  {
    HeaderIsSection(line);
    hide Trim, Decides;
    assert ([line] + rest)[1..] == rest;
  }

  lemma CutStep(line: string, rest: seq<string>, p: nat)
    requires 0 < p <= |rest| + 1
    ensures ([line] + rest)[..p] == [line] + rest[..p - 1] && ([line] + rest)[p..] == rest[p - 1..]
  {
  }

  /** In every text an edit puts its entry in one place: over the first line of the first default
      section that names the type, else where that section ends, else at the end of the text, with
      the section when there is none. Before it every line stays, and after it every line but those
      of default sections that name the type. */
  lemma EntryIsWrittenOnce(text: string, mime: string, app: string, p: nat)
    requires IsPlace(Lines(text), p, mime, false)
    ensures var ls, entry := Lines(text), EntryFor(mime, app);
            SetDefault(text, mime, app) == Join(
              if HasSection(ls) then ls[..p] + ([entry] + Kept(ls[p..], mime, InDefaults(ls, p, false)))
              else ls + ([HEADER] + [entry]))
  {
    hide Lines, IsPlace, SetFrom, Kept, EntryFor, InDefaults, Join;
    EditFrom(Lines(text), mime, app, false, p);
  }
}

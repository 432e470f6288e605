/** Default apps in `mimeapps.list`: the reader of one default, and the editor that sets it
    and keeps everything else. */
module Defaults {
  import opened Common

  const HEADER: string := "[Default Applications]"
  /** What choosing a browser sets. */
  const BROWSER_TYPES: seq<string> := [HTTP, HTTPS, HTML, XHTML]
  const HTTP: string := "x-scheme-handler/http"
  const HTTPS: string := "x-scheme-handler/https"
  const HTML: string := "text/html"
  const XHTML: string := "application/xhtml+xml"

  // ---------------------------------------------------------------------
  // Text
  // ---------------------------------------------------------------------

  /** The White_Space characters of Unicode. */
  predicate IsSpace(c: char)
  {
    || '\U{9}' <= c <= '\U{D}' || c == ' ' || c == '\U{85}' || c == '\U{A0}' || c == '\U{1680}'
    || '\U{2000}' <= c <= '\U{200A}' || c == '\U{2028}' || c == '\U{2029}' || c == '\U{202F}'
    || c == '\U{205F}' || c == '\U{3000}'
  }

  function TrimStart(s: string): (r: string)
  {
    if s != [] && IsSpace(s[0]) then TrimStart(s[1..]) else s
  }

  function TrimEnd(s: string): (r: string)
  {
    if s != [] && IsSpace(s[|s| - 1]) then TrimEnd(s[..|s| - 1]) else s
  }

  function Trim(s: string): (r: string)
  {
    TrimEnd(TrimStart(s))
  }

  /** Where `c` first is, the length when it is not there. */
  function IndexOf(s: string, c: char): (k: nat)
    ensures k <= |s|
    ensures forall i :: 0 <= i < k ==> s[i] != c
    ensures k < |s| ==> s[k] == c
  {
    if s == [] || s[0] == c then 0 else 1 + IndexOf(s[1..], c)
  }

  function StripCr(s: string): (r: string)
  {
    if s != [] && s[|s| - 1] == '\r' then s[..|s| - 1] else s
  }

  /** Lines end in a newline, with or without a carriage return before it; the last one
      need not end. */
  function Lines(text: string): (ls: seq<string>)
    decreases |text|
  {
    if text == [] then [] else
      var k := IndexOf(text, '\n');
      if k == |text| then [text] else [StripCr(text[..k])] + Lines(text[k + 1..])
  }

  function Join(ls: seq<string>): (text: string)
  {
    if ls == [] then [] else ls[0] + "\n" + Join(ls[1..])
  }

  function StripAll(ls: seq<string>): (r: seq<string>)
  {
    if ls == [] then [] else [StripCr(ls[0])] + StripAll(ls[1..])
  }

  predicate NoNewlines(ls: seq<string>)
  {
    forall i :: 0 <= i < |ls| ==> '\n' !in ls[i]
  }

  // ---------------------------------------------------------------------
  // What a line is
  // ---------------------------------------------------------------------

  function SplitOnce(s: string): (r: Option<(string, string)>)
  {
    if s == [] then None
    else if s[0] == '=' then Some(([], s[1..]))
    else match SplitOnce(s[1..])
      case Some((k, v)) => Some(([s[0]] + k, v))
      case None => None
  }

  function KeyOf(line: string): (r: Option<string>)
  {
    match SplitOnce(line)
    case Some((k, _)) => Some(Trim(k))
    case None => None
  }

  predicate IsSection(line: string)
  {
    Trim(line) != [] && Trim(line)[0] == '['
  }

  /** The first of the values between semicolons that is not blank. */
  function FirstValue(v: string): (r: Option<string>)
    decreases |v|
  {
    var k := IndexOf(v, ';');
    var piece := Trim(v[..k]);
    if piece != [] then Some(piece)
    else if k < |v| then FirstValue(v[k + 1..])
    else None
  }

  // ---------------------------------------------------------------------
  // The reader
  // ---------------------------------------------------------------------

  /** The default for `mime` in the rest of a file, `inside` the section or not. */
  function DefaultFrom(ls: seq<string>, mime: string, inside: bool): (r: Option<string>)
  {
    if ls == [] then None else
      var line := Trim(ls[0]);
      if line != [] && line[0] == '[' then DefaultFrom(ls[1..], mime, line == HEADER)
      else if !inside then DefaultFrom(ls[1..], mime, inside)
      else match SplitOnce(line)
        case Some((key, value)) =>
          if Trim(key) == mime then FirstValue(value) else DefaultFrom(ls[1..], mime, inside)
        case None => DefaultFrom(ls[1..], mime, inside)
  }

  function DefaultIn(text: string, mime: string): (r: Option<string>)
  {
    DefaultFrom(Lines(text), mime, false)
  }

  method ReadDefault(text: string, mime: string) returns (app: Option<string>)
    ensures app == DefaultIn(text, mime)
  {
    var ls := Lines(text);
    var defaults := false;
    var i := 0;
    while i < |ls|
      invariant 0 <= i <= |ls|
      invariant DefaultFrom(ls, mime, false) == DefaultFrom(ls[i..], mime, defaults)
    {
      var line := Trim(ls[i]);
      assert ls[i..][1..] == ls[i + 1..];
      i := i + 1;
      if line != [] && line[0] == '[' {
        defaults := line == HEADER;
        continue;
      }
      if !defaults {
        continue;
      }
      var split := SplitOnce(line);
      if split.Some? && Trim(split.value.0) == mime {
        return FirstValue(split.value.1);
      }
    }
    return None;
  }

  // ---------------------------------------------------------------------
  // The editor
  // ---------------------------------------------------------------------

  function EntryFor(mime: string, app: string): (r: string)
  {
    mime + "=" + app + ";"
  }

  /** A line of the section that sets `mime`. */
  predicate Ours(line: string, mime: string, inside: bool)
  {
    inside && KeyOf(line) == Some(mime)
  }

  /** Inside the section after `line`, given whether inside before it. */
  function Inside(line: string, inside: bool): (r: bool)
  {
    if IsSection(line) then Trim(line) == HEADER else inside
  }

  /** Where an edit stands: inside the section, it has been found, the entry is written. */
  datatype Edit = Edit(inside: bool, found: bool, wrote: bool)

  const Untouched: Edit := Edit(false, false, false)

  /** The section ends at this line and the entry is still to be written. */
  predicate Leaving(line: string, e: Edit)
  {
    IsSection(line) && e.inside && !e.wrote
  }

  /** What a line becomes. */
  function Emitted(line: string, mime: string, app: string, e: Edit): (out: seq<string>)
  {
    (if Leaving(line, e) then [EntryFor(mime, app)] else []) +
    (if !Ours(line, mime, Inside(line, e.inside)) then [line]
     else if !(e.wrote || Leaving(line, e)) then [EntryFor(mime, app)]
     else [])
  }

  function Advanced(line: string, mime: string, e: Edit): (r: Edit)
  {
    var inside := Inside(line, e.inside);
    Edit(inside,
         e.found || (IsSection(line) && inside),
         e.wrote || Leaving(line, e) || Ours(line, mime, inside))
  }

  /** What the end of the file still needs. */
  function Ending(mime: string, app: string, e: Edit): (out: seq<string>)
  {
    (if e.found then [] else [HEADER]) + (if e.wrote then [] else [EntryFor(mime, app)])
  }

  /** What the rest of a file becomes. */
  function SetFrom(ls: seq<string>, mime: string, app: string, e: Edit): (out: seq<string>)
  {
    if ls == [] then Ending(mime, app, e)
    else Emitted(ls[0], mime, app, e) + SetFrom(ls[1..], mime, app, Advanced(ls[0], mime, e))
  }

  /** The text always has an entry, so joining its lines with newlines and ending in one
      ends every line. */
  function SetDefault(text: string, mime: string, app: string): (r: string)
  {
    Join(SetFrom(Lines(text), mime, app, Untouched))
  }

  lemma SetFromStep(ls: seq<string>, i: nat, mime: string, app: string, e: Edit, out: seq<string>)
    requires i < |ls|
    ensures out + SetFrom(ls[i..], mime, app, e) ==
            out + Emitted(ls[i], mime, app, e) + SetFrom(ls[i + 1..], mime, app, Advanced(ls[i], mime, e))
  {
    hide Emitted, Advanced;
    var a, b := Emitted(ls[i], mime, app, e), SetFrom(ls[i + 1..], mime, app, Advanced(ls[i], mime, e));
    assert ls[i..][0] == ls[i] && ls[i..][1..] == ls[i + 1..];
    assert out + (a + b) == out + a + b;
  }

  lemma SetFromEnd(ls: seq<string>, mime: string, app: string, e: Edit)
    ensures SetFrom(ls[|ls|..], mime, app, e) == Ending(mime, app, e)
  {
  }

  method WriteDefault(text: string, mime: string, app: string) returns (edited: string)
    ensures edited == SetDefault(text, mime, app)
  {
    hide Lines, Trim, KeyOf, EntryFor, SetFrom;
    var ls := Lines(text);
    var out: seq<string> := [];
    var defaults, found, wrote := false, false, false;
    var i := 0;
    ghost var all := SetFrom(ls, mime, app, Untouched);
    assert ls[0..] == ls && [] + all == all;
    while i < |ls|
      invariant 0 <= i <= |ls|
      invariant out + SetFrom(ls[i..], mime, app, Edit(defaults, found, wrote)) == all
    {
      var line := ls[i];
      ghost var before, e := out, Edit(defaults, found, wrote);
      SetFromStep(ls, i, mime, app, e, before);
      if IsSection(line) {
        if defaults && !wrote {
          out := out + [EntryFor(mime, app)];
          wrote := true;
        }
        defaults := Trim(line) == HEADER;
        found := found || defaults;
      }
      var ours := defaults && KeyOf(line) == Some(mime);
      if !ours {
        out := out + [line];
      } else if !wrote {
        out := out + [EntryFor(mime, app)];
        wrote := true;
      }
      assert out == before + Emitted(line, mime, app, e);
      assert Edit(defaults, found, wrote) == Advanced(line, mime, e);
      i := i + 1;
    }
    SetFromEnd(ls, mime, app, Edit(defaults, found, wrote));
    ghost var before := out;
    if !found {
      out := out + [HEADER];
    }
    if !wrote {
      out := out + [EntryFor(mime, app)];
    }
    assert out == before + Ending(mime, app, Edit(defaults, found, wrote));
    edited := Join(out);
  }

  // ---------------------------------------------------------------------
  // Trimming and lines
  // ---------------------------------------------------------------------

  predicate AllSpace(s: string) { forall i :: 0 <= i < |s| ==> IsSpace(s[i]) }

  lemma {:induction false} TrimStartAppend(s: string, c: char)
    requires IsSpace(c)
    ensures TrimStart(s + [c]) == if AllSpace(s) then [] else TrimStart(s) + [c]
    ensures AllSpace(s) ==> TrimStart(s) == []
  {
    if s != [] && IsSpace(s[0]) {
      assert (s + [c])[1..] == s[1..] + [c];
      assert AllSpace(s) <==> AllSpace(s[1..]) by {
        if AllSpace(s[1..]) {
          forall i | 0 <= i < |s| ensures IsSpace(s[i]) {
            if i > 0 { assert s[i] == s[1..][i - 1]; }
          }
        }
      }
      TrimStartAppend(s[1..], c);
    } else if s == [] {
      assert (s + [c])[1..] == [];
    }
  }

  /** A blank at the end makes no difference to a trimmed line. */
  lemma TrimAppend(s: string, c: char)
    requires IsSpace(c)
    ensures Trim(s + [c]) == Trim(s)
  {
    TrimStartAppend(s, c);
    var t := TrimStart(s);
    assert (t + [c])[..|t|] == t;
  }

  lemma TrimStripCr(line: string)
    ensures Trim(StripCr(line)) == Trim(line)
  {
    if line != [] && line[|line| - 1] == '\r' {
      TrimAppend(line[..|line| - 1], '\r');
      assert line == line[..|line| - 1] + ['\r'];
    }
  }

  lemma {:induction false} KeyTrimStart(line: string)
    ensures KeyOf(TrimStart(line)) == KeyOf(line)
  {
    if line != [] && IsSpace(line[0]) {
      KeyTrimStart(line[1..]);
      match SplitOnce(line[1..]) {
        case Some((k, v)) => assert ([line[0]] + k)[1..] == k;
        case None =>
      }
    }
  }

  lemma {:induction false} SplitAppend(s: string, c: char)
    requires c != '='
    ensures match SplitOnce(s)
            case Some((k, v)) => SplitOnce(s + [c]) == Some((k, v + [c]))
            case None => SplitOnce(s + [c]) == None
  {
    if s == [] {
      assert (s + [c])[1..] == [];
    } else {
      assert (s + [c])[1..] == s[1..] + [c];
      SplitAppend(s[1..], c);
    }
  }

  lemma {:induction false} KeyTrimEnd(line: string)
    ensures KeyOf(TrimEnd(line)) == KeyOf(line)
  {
    if line != [] && IsSpace(line[|line| - 1]) {
      var n := |line| - 1;
      KeyTrimEnd(line[..n]);
      SplitAppend(line[..n], line[n]);
      assert line == line[..n] + [line[n]];
    }
  }

  /** The reader, which trims a line first, and the editor, which does not, see the same key. */
  lemma KeyOfTrimmed(line: string)
    ensures KeyOf(Trim(line)) == KeyOf(line)
  {
    KeyTrimStart(line);
    KeyTrimEnd(TrimStart(line));
  }

  lemma SameLine(line: string)
    ensures Trim(StripCr(line)) == Trim(line)
    ensures IsSection(StripCr(line)) == IsSection(line)
    ensures KeyOf(StripCr(line)) == KeyOf(line)
  {
    TrimStripCr(line);
    KeyOfTrimmed(line);
    KeyOfTrimmed(StripCr(line));
  }

  lemma {:induction false} LinesHaveNoNewlines(text: string)
    ensures NoNewlines(Lines(text))
    decreases |text|
  {
    if text != [] {
      var k := IndexOf(text, '\n');
      NotInFront(text, '\n');
      hide IndexOf;
      if k < |text| {
        LinesHaveNoNewlines(text[k + 1..]);
      } else {
        assert text[..k] == text;
      }
    }
  }

  lemma NotInFront(s: string, c: char)
    ensures c !in s[..IndexOf(s, c)] && c !in StripCr(s[..IndexOf(s, c)])
  {
    hide IndexOf;
    var front := s[..IndexOf(s, c)];
    forall i | 0 <= i < |front| ensures front[i] != c {
      assert front[i] == s[i];
    }
  }

  lemma IndexOfAppend(s: string, c: char, rest: string)
    requires c !in s
    ensures IndexOf(s + [c] + rest, c) == |s|
  {
    var t := s + [c] + rest;
    var k := IndexOf(t, c);
    assert t[|s|] == c;
    forall j | 0 <= j < |s| ensures t[j] != c {
      assert t[j] == s[j] && s[j] in s;
    }
  }

  /** Lines written out and read back lose a carriage return at their end and nothing else. */
  lemma {:induction false} LinesOfJoin(ls: seq<string>)
    requires NoNewlines(ls)
    ensures Lines(Join(ls)) == StripAll(ls)
  {
    if ls != [] {
      var rest := Join(ls[1..]);
      var text := ls[0] + "\n" + rest;
      IndexOfAppend(ls[0], '\n', rest);
      assert text[..|ls[0]|] == ls[0] && text[|ls[0]| + 1..] == rest;
      LinesOfJoin(ls[1..]);
    }
  }

  // ---------------------------------------------------------------------
  // The entry
  // ---------------------------------------------------------------------

  /** A type and an app that can be written on a line. */
  predicate Settable(mime: string, app: string)
  {
    && Trim(mime) == mime && '=' !in mime && '\n' !in mime && (mime == [] || mime[0] != '[')
    && app != [] && Trim(app) == app && ';' !in app && '\n' !in app
  }

  lemma {:induction false} TrimmedEnds(s: string)
    requires Trim(s) == s && s != []
    ensures !IsSpace(s[0])
  {
    TrimShrinks(s);
  }

  lemma {:induction false} TrimStartShrinks(s: string)
    ensures |TrimStart(s)| <= |s|
    ensures s != [] && IsSpace(s[0]) ==> |TrimStart(s)| < |s|
  {
    if s != [] && IsSpace(s[0]) { TrimStartShrinks(s[1..]); }
  }

  lemma {:induction false} TrimEndShrinks(s: string)
    ensures |TrimEnd(s)| <= |s|
  {
    if s != [] && IsSpace(s[|s| - 1]) { TrimEndShrinks(s[..|s| - 1]); }
  }

  lemma TrimShrinks(s: string)
    ensures |Trim(s)| <= |s|
    ensures s != [] && IsSpace(s[0]) ==> |Trim(s)| < |s|
  {
    TrimStartShrinks(s);
    TrimEndShrinks(TrimStart(s));
  }

  lemma {:induction false} SplitAtFirst(k: string, v: string)
    requires '=' !in k
    ensures SplitOnce(k + "=" + v) == Some((k, v))
  {
    var s := k + "=" + v;
    if k == [] {
      assert s[1..] == v;
    } else {
      assert s[1..] == k[1..] + "=" + v;
      SplitAtFirst(k[1..], v);
      assert [k[0]] + k[1..] == k;
    }
  }

  /** The entry reads as what it sets. */
  lemma EntryReads(mime: string, app: string)
    requires Settable(mime, app)
    ensures var line := EntryFor(mime, app);
            && Trim(line) == line && !IsSection(line) && '\n' !in line && StripCr(line) == line
            && SplitOnce(line) == Some((mime, app + ";")) && KeyOf(line) == Some(mime)
            && FirstValue(app + ";") == Some(app)
  {
    var line := EntryFor(mime, app);
    assert line == mime + "=" + (app + ";");
    SplitAtFirst(mime, app + ";");
    if mime != [] { TrimmedEnds(mime); }
    assert line[0] == if mime == [] then '=' else mime[0];
    assert line[|line| - 1] == ';';
    assert Trim(line) == line;
    IndexOfAppend(app, ';', []);
    assert app + [';'] + [] == app + ";";
    assert (app + ";")[..|app|] == app;
  }

  // ---------------------------------------------------------------------
  // What the reader sees, line by line
  // ---------------------------------------------------------------------

  /** The line decides the default of `mime`. */
  predicate Decides(line: string, mime: string, inside: bool)
  {
    !IsSection(line) && inside && KeyOf(line) == Some(mime)
  }

  function ValueOf(line: string): (r: Option<string>)
  {
    match SplitOnce(Trim(line))
    case Some((_, v)) => FirstValue(v)
    case None => None
  }

  lemma ReaderStep(line: string, rest: seq<string>, mime: string, inside: bool)
    ensures DefaultFrom([line] + rest, mime, inside) ==
            if Decides(line, mime, inside) then ValueOf(line) else DefaultFrom(rest, mime, Inside(line, inside))
  {
    KeyOfTrimmed(line);
    assert ([line] + rest)[1..] == rest;
    hide Trim, FirstValue;
  }

  lemma {:induction false} NoEqualsNoKey(s: string)
    requires '=' !in s
    ensures SplitOnce(s) == None
  {
    if s != [] { NoEqualsNoKey(s[1..]); }
  }

  lemma HeaderHasNoKey()
    ensures KeyOf(HEADER) == None
  {
    NoEqualsNoKey(HEADER);
  }

  /** A line is the editor's to replace exactly when the reader would decide by it. */
  lemma OursDecides(line: string, mime: string, inside: bool)
    ensures Ours(line, mime, Inside(line, inside)) <==> Decides(line, mime, inside)
  {
    hide KeyOf, Trim;
    KeyOfTrimmed(line);
    HeaderHasNoKey();
  }

  lemma {:induction false} ReaderIgnoresCr(ls: seq<string>, mime: string, inside: bool)
    ensures DefaultFrom(StripAll(ls), mime, inside) == DefaultFrom(ls, mime, inside)
  {
    if ls != [] {
      SameLine(ls[0]);
      ReaderStep(ls[0], ls[1..], mime, inside);
      ReaderStep(StripCr(ls[0]), StripAll(ls[1..]), mime, inside);
      ReaderIgnoresCr(ls[1..], mime, Inside(ls[0], inside));
      assert [ls[0]] + ls[1..] == ls;
      hide Trim, DefaultFrom;
    }
  }

  lemma HeaderReads()
    ensures Trim(HEADER) == HEADER && IsSection(HEADER) && '\n' !in HEADER && StripCr(HEADER) == HEADER
  {
    hide Trim;
    assert HEADER[0] == '[' && HEADER[|HEADER| - 1] == ']';
    TrimOfSolid(HEADER);
  }

  lemma TrimOfSolid(s: string)
    requires s != [] && !IsSpace(s[0]) && !IsSpace(s[|s| - 1])
    ensures Trim(s) == s
  {
  }

  // ---------------------------------------------------------------------
  // Setting, then reading
  // ---------------------------------------------------------------------

  /** An edit that has found the section and not written the entry is still inside it. */
  predicate Coherent(e: Edit)
  {
    (e.inside ==> e.found) && (e.wrote ==> e.found) && (e.found && !e.wrote ==> e.inside)
  }

  lemma EntryThen(mime: string, app: string, rest: seq<string>, other: string, inside: bool)
    requires Settable(mime, app)
    ensures DefaultFrom([EntryFor(mime, app)] + rest, other, inside) ==
            if inside && other == mime then Some(app) else DefaultFrom(rest, other, inside)
  {
    EntryReads(mime, app);
    ReaderStep(EntryFor(mime, app), rest, other, inside);
    hide Trim, DefaultFrom, EntryFor;
  }

  lemma HeaderThen(rest: seq<string>, other: string, inside: bool)
    ensures DefaultFrom([HEADER] + rest, other, inside) == DefaultFrom(rest, other, true)
  {
    HeaderReads();
    ReaderStep(HEADER, rest, other, inside);
    hide Trim, DefaultFrom;
  }

  lemma EndingReads(mime: string, app: string, e: Edit, other: string)
    requires Settable(mime, app) && Coherent(e)
    ensures DefaultFrom(Ending(mime, app, e), other, e.inside) ==
            if !e.wrote && other == mime then Some(app) else None
  {
    var entry := if e.wrote then [] else [EntryFor(mime, app)];
    var inside := e.inside || !e.found;
    if !e.wrote { EntryThen(mime, app, [], other, inside); assert [EntryFor(mime, app)] + [] == entry; }
    if !e.found { HeaderThen(entry, other, e.inside); }
    assert [] + entry == entry;
    assert DefaultFrom([], other, inside) == None;
    hide DefaultFrom, EntryFor;
  }

  /** What the reader makes of an edited line: the entry wherever `mime` is written, and the
      old line for every other type. */
  lemma EmittedReads(line: string, mime: string, app: string, e: Edit, rest: seq<string>, other: string)
    requires Settable(mime, app) && Coherent(e)
    ensures DefaultFrom(Emitted(line, mime, app, e) + rest, other, e.inside) ==
            if other == mime && !e.wrote && Advanced(line, mime, e).wrote then Some(app)
            else if other != mime && Decides(line, other, e.inside) then ValueOf(line)
            else DefaultFrom(rest, other, Inside(line, e.inside))
  {
    hide DefaultFrom, EntryFor, Trim, KeyOf, ValueOf;
    OursDecides(line, mime, e.inside);
    var entry := [EntryFor(mime, app)];
    assert entry + [line] + rest == entry + ([line] + rest);
    assert entry + [] + rest == entry + rest;
    assert [] + [line] + rest == [line] + rest;
    assert [] + entry + rest == entry + rest;
    assert [] + [] + rest == rest;
    ReaderStep(line, rest, other, e.inside);
    EntryThen(mime, app, rest, other, e.inside);
    EntryThen(mime, app, [line] + rest, other, e.inside);
  }

  lemma AdvancedIsCoherent(line: string, mime: string, e: Edit)
    requires Coherent(e)
    ensures Coherent(Advanced(line, mime, e))
  {
    hide Trim, KeyOf;
  }

  /** The one law of the editor, over the lines of a file: the type set reads as the app,
      every other type as before. */
  lemma {:induction false} SetThenRead(ls: seq<string>, mime: string, app: string, e: Edit, other: string)
    requires Settable(mime, app) && Coherent(e)
    ensures other != mime ==>
              DefaultFrom(SetFrom(ls, mime, app, e), other, e.inside) == DefaultFrom(ls, other, e.inside)
    ensures other == mime && !e.wrote ==> DefaultFrom(SetFrom(ls, mime, app, e), other, e.inside) == Some(app)
  {
    if ls == [] {
      EndingReads(mime, app, e, other);
    } else {
      hide DefaultFrom, Emitted, EntryFor, Trim, KeyOf, ValueOf;
      var next := Advanced(ls[0], mime, e);
      AdvancedIsCoherent(ls[0], mime, e);
      EmittedReads(ls[0], mime, app, e, SetFrom(ls[1..], mime, app, next), other);
      ReaderStep(ls[0], ls[1..], other, e.inside);
      assert [ls[0]] + ls[1..] == ls;
      SetThenRead(ls[1..], mime, app, next, other);
    }
  }

  lemma {:induction false} EditHasNoNewlines(ls: seq<string>, mime: string, app: string, e: Edit)
    requires Settable(mime, app) && NoNewlines(ls)
    ensures NoNewlines(SetFrom(ls, mime, app, e))
  {
    EntryReads(mime, app);
    HeaderReads();
    hide EntryFor, Trim, KeyOf;
    if ls != [] {
      EditHasNoNewlines(ls[1..], mime, app, Advanced(ls[0], mime, e));
      var a := Emitted(ls[0], mime, app, e);
      forall i | 0 <= i < |a| ensures '\n' !in a[i] {}
    }
  }

  lemma LinesOfEdited(text: string, mime: string, app: string)
    requires Settable(mime, app)
    ensures Lines(SetDefault(text, mime, app)) == StripAll(SetFrom(Lines(text), mime, app, Untouched))
  {
    hide Settable;
    LinesHaveNoNewlines(text);
    EditHasNoNewlines(Lines(text), mime, app, Untouched);
    LinesOfJoin(SetFrom(Lines(text), mime, app, Untouched));
  }

  /** For every text, with repeated sections and keys: after setting `mime` to `app` it reads
      as `app`, and every other type as it did. */
  lemma SetDefaultThenRead(text: string, mime: string, app: string, other: string)
    requires Settable(mime, app)
    ensures DefaultIn(SetDefault(text, mime, app), mime) == Some(app)
    ensures other != mime ==> DefaultIn(SetDefault(text, mime, app), other) == DefaultIn(text, other)
  {
    hide SetFrom, DefaultFrom, Lines, StripAll, SetDefault, Settable;
    var out := SetFrom(Lines(text), mime, app, Untouched);
    LinesOfEdited(text, mime, app);
    ReaderIgnoresCr(out, mime, false);
    ReaderIgnoresCr(out, other, false);
    SetThenRead(Lines(text), mime, app, Untouched, mime);
    SetThenRead(Lines(text), mime, app, Untouched, other);
  }

  // ---------------------------------------------------------------------
  // Setting twice
  // ---------------------------------------------------------------------

  /** The lines an edit keeps as they are. */
  function Kept(ls: seq<string>, mime: string, inside: bool): (r: seq<string>)
  {
    if ls == [] then [] else
      (if Decides(ls[0], mime, inside) then [] else [ls[0]]) + Kept(ls[1..], mime, Inside(ls[0], inside))
  }

  predicate EndsInCr(line: string) { line != [] && line[|line| - 1] == '\r' }

  predicate NoneEndsInCr(ls: seq<string>)
  {
    forall i :: 0 <= i < |ls| ==> !EndsInCr(ls[i])
  }

  lemma KeptStep(line: string, rest: seq<string>, mime: string, inside: bool)
    ensures Kept([line] + rest, mime, inside) ==
            (if Decides(line, mime, inside) then [] else [line]) + Kept(rest, mime, Inside(line, inside))
  {
    assert ([line] + rest)[1..] == rest;
    hide Decides, Inside;
  }

  lemma SetStep(line: string, rest: seq<string>, mime: string, app: string, e: Edit)
    ensures SetFrom([line] + rest, mime, app, e) ==
            Emitted(line, mime, app, e) + SetFrom(rest, mime, app, Advanced(line, mime, e))
  {
    assert ([line] + rest)[1..] == rest;
    hide Emitted, Advanced;
  }

  /** An entry already there is left there. */
  lemma EntryAgain(mime: string, app: string, rest: seq<string>, e: Edit)
    requires Settable(mime, app) && e.inside && !e.wrote
    ensures SetFrom([EntryFor(mime, app)] + rest, mime, app, e) ==
            [EntryFor(mime, app)] + SetFrom(rest, mime, app, e.(wrote := true))
  {
    hide SetFrom, EntryFor, Trim, KeyOf, FirstValue;
    EntryReads(mime, app);
    SetStep(EntryFor(mime, app), rest, mime, app, e);
  }

  /** A line that is not the editor's passes, when the section need not be closed. */
  lemma PassesAgain(line: string, rest: seq<string>, mime: string, app: string, e: Edit)
    requires !Leaving(line, e) && !Ours(line, mime, Inside(line, e.inside))
    ensures SetFrom([line] + rest, mime, app, e) == [line] + SetFrom(rest, mime, app, Advanced(line, mime, e))
  {
    hide SetFrom, Ours, Inside, Leaving, Advanced;
    SetStep(line, rest, mime, app, e);
  }

  lemma EndingAgain(mime: string, app: string, e: Edit)
    requires Settable(mime, app) && Coherent(e)
    ensures SetFrom(Ending(mime, app, e), mime, app, e) == Ending(mime, app, e)
  {
    HeaderReads();
    HeaderHasNoKey();
    hide SetFrom, EntryFor, Trim, KeyOf;
    var entry := if e.wrote then [] else [EntryFor(mime, app)];
    var inside := e.(found := true, inside := e.inside || !e.found);
    var done := inside.(wrote := true);
    SetFromEnd([], mime, app, done);
    if !e.wrote {
      EntryAgain(mime, app, [], inside);
      assert [EntryFor(mime, app)] + [] == entry;
    }
    assert SetFrom(entry, mime, app, inside) == entry;
    assert [] + entry == entry;
    if !e.found {
      PassesAgain(HEADER, entry, mime, app, e);
      assert Advanced(HEADER, mime, e) == inside;
    }
  }

  lemma EmittedAgain(line: string, mime: string, app: string, e: Edit, rest: seq<string>)
    requires Settable(mime, app) && Coherent(e)
    ensures SetFrom(Emitted(line, mime, app, e) + rest, mime, app, e) ==
            Emitted(line, mime, app, e) + SetFrom(rest, mime, app, Advanced(line, mime, e))
  {
    hide SetFrom, EntryFor, Trim, KeyOf;
    OursDecides(line, mime, e.inside);
    var entry := [EntryFor(mime, app)];
    assert entry + [line] + rest == entry + ([line] + rest);
    assert entry + [] + rest == entry + rest;
    assert [] + [line] + rest == [line] + rest;
    assert [] + entry + rest == entry + rest;
    assert [] + [] + rest == rest;
    if Leaving(line, e) {
      EntryAgain(mime, app, [line] + rest, e);
      PassesAgain(line, rest, mime, app, e.(wrote := true));
      assert Advanced(line, mime, e) == Advanced(line, mime, e.(wrote := true));
      var tail := SetFrom(rest, mime, app, Advanced(line, mime, e));
      assert entry + ([line] + tail) == entry + [line] + tail;
    } else if !Ours(line, mime, Inside(line, e.inside)) {
      PassesAgain(line, rest, mime, app, e);
      assert [] + [line] == [line];
    } else if !e.wrote {
      EntryAgain(mime, app, rest, e);
      assert [] + entry == entry;
    } else {
      assert Advanced(line, mime, e) == e;
      assert [] + SetFrom(rest, mime, app, e) == SetFrom(rest, mime, app, e);
    }
  }

  lemma {:induction false} LinesSetAgain(ls: seq<string>, mime: string, app: string, e: Edit)
    requires Settable(mime, app) && Coherent(e)
    ensures SetFrom(SetFrom(ls, mime, app, e), mime, app, e) == SetFrom(ls, mime, app, e)
  {
    if ls == [] {
      EndingAgain(mime, app, e);
    } else {
      hide Emitted, Settable, Coherent, Advanced;
      var next := Advanced(ls[0], mime, e);
      AdvancedIsCoherent(ls[0], mime, e);
      LinesSetAgain(ls[1..], mime, app, next);
      EmittedAgain(ls[0], mime, app, e, SetFrom(ls[1..], mime, app, next));
    }
  }

  lemma {:induction false} StripAdds(a: seq<string>, b: seq<string>)
    ensures StripAll(a + b) == StripAll(a) + StripAll(b)
  {
    if a == [] {
      assert a + b == b;
    } else {
      assert (a + b)[1..] == a[1..] + b;
      StripAdds(a[1..], b);
    }
  }

  lemma EmittedStrips(line: string, mime: string, app: string, e: Edit)
    requires Settable(mime, app)
    ensures Emitted(StripCr(line), mime, app, e) == StripAll(Emitted(line, mime, app, e))
    ensures Advanced(StripCr(line), mime, e) == Advanced(line, mime, e)
  {
    SameLine(line);
    EntryReads(mime, app);
    hide EntryFor, Trim, KeyOf, StripCr;
    var entry := EntryFor(mime, app);
    assert StripAll([entry]) == [entry];
    assert StripAll([line]) == [StripCr(line)];
    StripAdds(if Leaving(line, e) then [entry] else [],
              if !Ours(line, mime, Inside(line, e.inside)) then [line]
              else if !(e.wrote || Leaving(line, e)) then [entry] else []);
  }

  /** A carriage return at the end of a line never changes what becomes of it. */
  lemma {:induction false} EditStrips(ls: seq<string>, mime: string, app: string, e: Edit)
    requires Settable(mime, app)
    ensures SetFrom(StripAll(ls), mime, app, e) == StripAll(SetFrom(ls, mime, app, e))
  {
    if ls == [] {
      EntryReads(mime, app);
      HeaderReads();
      hide EntryFor, Trim, KeyOf;
      StripAdds(if e.found then [] else [HEADER], if e.wrote then [] else [EntryFor(mime, app)]);
      assert StripAll([HEADER]) == [HEADER];
      assert StripAll([EntryFor(mime, app)]) == [EntryFor(mime, app)];
    } else {
      hide Emitted, Advanced, Settable, StripCr;
      var next := Advanced(ls[0], mime, e);
      EmittedStrips(ls[0], mime, app, e);
      EditStrips(ls[1..], mime, app, next);
      StripAdds(Emitted(ls[0], mime, app, e), SetFrom(ls[1..], mime, app, next));
      assert StripAll(ls)[0] == StripCr(ls[0]) && StripAll(ls)[1..] == StripAll(ls[1..]);
    }
  }

  lemma {:induction false} StripAllIsIdentity(ls: seq<string>)
    ensures |StripAll(ls)| == |ls|
    ensures StripAll(ls) == ls <==> NoneEndsInCr(ls)
  {
    if ls != [] {
      StripAllIsIdentity(ls[1..]);
      assert ls == [ls[0]] + ls[1..];
      assert NoneEndsInCr(ls) <==> !EndsInCr(ls[0]) && NoneEndsInCr(ls[1..]) by {
        if !EndsInCr(ls[0]) && NoneEndsInCr(ls[1..]) {
          forall i | 0 <= i < |ls| ensures !EndsInCr(ls[i]) { if i > 0 { assert ls[i] == ls[1..][i - 1]; } }
        }
      }
      if StripAll(ls) == ls { assert StripAll(ls)[0] == ls[0] && StripAll(ls)[1..] == ls[1..]; }
    }
  }

  /** Of the lines of an edited file only the kept ones can end in a carriage return. */
  lemma {:induction false} KeptDecideCr(ls: seq<string>, mime: string, app: string, e: Edit)
    requires Settable(mime, app)
    ensures NoneEndsInCr(SetFrom(ls, mime, app, e)) <==> NoneEndsInCr(Kept(ls, mime, e.inside))
  {
    EntryReads(mime, app);
    HeaderReads();
    hide EntryFor, Trim, KeyOf;
    if ls != [] {
      OursDecides(ls[0], mime, e.inside);
      var next := Advanced(ls[0], mime, e);
      KeptDecideCr(ls[1..], mime, app, next);
      var a, b := Emitted(ls[0], mime, app, e), SetFrom(ls[1..], mime, app, next);
      var c, d := if Decides(ls[0], mime, e.inside) then [] else [ls[0]], Kept(ls[1..], mime, next.inside);
      CrAdds(a, b);
      CrAdds(c, d);
      var entry := EntryFor(mime, app);
      assert !EndsInCr(entry);
      CrAdds(if Leaving(ls[0], e) then [entry] else [],
             if !Ours(ls[0], mime, next.inside) then [ls[0]]
             else if !(e.wrote || Leaving(ls[0], e)) then [entry] else []);
    }
  }

  lemma CrAdds(a: seq<string>, b: seq<string>)
    ensures NoneEndsInCr(a + b) <==> NoneEndsInCr(a) && NoneEndsInCr(b)
  {
    if NoneEndsInCr(a + b) {
      forall i | 0 <= i < |a| ensures !EndsInCr(a[i]) { assert (a + b)[i] == a[i]; }
      forall i | 0 <= i < |b| ensures !EndsInCr(b[i]) { assert (a + b)[|a| + i] == b[i]; }
    }
  }

  /** A carriage return taken off makes the text shorter. */
  lemma {:induction false} StrayCrShortens(ls: seq<string>)
    ensures |Join(StripAll(ls))| <= |Join(ls)|
    ensures !NoneEndsInCr(ls) ==> |Join(StripAll(ls))| < |Join(ls)|
  {
    if ls != [] {
      StrayCrShortens(ls[1..]);
      if NoneEndsInCr(ls[1..]) && !EndsInCr(ls[0]) {
        forall i | 0 <= i < |ls| ensures !EndsInCr(ls[i]) { if i > 0 { assert ls[i] == ls[1..][i - 1]; } }
      }
      var rest := StripAll(ls[1..]);
      assert ([StripCr(ls[0])] + rest)[1..] == rest;
    }
  }

  /** Setting the same default again leaves the text as it is exactly when none of the lines
      kept the first time ends in a carriage return, once its line ending is taken off. */
  lemma SetAgainExactlyWhenNoStrayCr(text: string, mime: string, app: string)
    requires Settable(mime, app)
    ensures SetDefault(SetDefault(text, mime, app), mime, app) == SetDefault(text, mime, app)
            <==> NoneEndsInCr(Kept(Lines(text), mime, false))
  {
    var ls := Lines(text);
    var out := SetFrom(ls, mime, app, Untouched);
    LinesOfEdited(text, mime, app);
    EditStrips(out, mime, app, Untouched);
    LinesSetAgain(ls, mime, app, Untouched);
    StripAllIsIdentity(out);
    KeptDecideCr(ls, mime, app, Untouched);
    StrayCrShortens(out);
    hide SetFrom, Lines, Settable, StripAll, Kept;
  }

  /** A text on which setting twice is not setting once: a last line that is a lone
      carriage return. */
  lemma StrayCrIsLostLater(mime: string, app: string)
    requires Settable(mime, app)
    ensures SetDefault(SetDefault("\r", mime, app), mime, app) != SetDefault("\r", mime, app)
  {
    hide SetDefault, Settable, Lines, Kept;
    SetAgainExactlyWhenNoStrayCr("\r", mime, app);
    LoneCrIsKept(mime);
    assert EndsInCr(Kept(["\r"], mime, false)[0]);
  }

  lemma LoneCrIsKept(mime: string)
    ensures Lines("\r") == ["\r"] && Kept(["\r"], mime, false) == ["\r"]
  {
    assert TrimStart("\r") == TrimStart([]) == [];
    assert Kept(["\r"], mime, false) == ["\r"] + [];
  }

  // ---------------------------------------------------------------------
  // Everything else is kept
  // ---------------------------------------------------------------------

  function HasSection(ls: seq<string>): (r: bool)
  {
    ls != [] && (Trim(ls[0]) == HEADER || HasSection(ls[1..]))
  }

  lemma EmittedKept(line: string, mime: string, app: string, e: Edit, rest: seq<string>)
    requires Settable(mime, app) && Coherent(e)
    ensures Kept(Emitted(line, mime, app, e) + rest, mime, e.inside) ==
            (if Decides(line, mime, e.inside) then [] else [line]) + Kept(rest, mime, Inside(line, e.inside))
  {
    hide Kept, EntryFor, Trim, KeyOf, Settable;
    EntryReads(mime, app);
    OursDecides(line, mime, e.inside);
    var entry := [EntryFor(mime, app)];
    assert entry + [line] + rest == entry + ([line] + rest);
    assert entry + [] + rest == entry + rest;
    assert [] + [line] + rest == [line] + rest;
    assert [] + entry + rest == entry + rest;
    assert [] + [] + rest == rest;
    KeptStep(line, rest, mime, e.inside);
    KeptStep(entry[0], rest, mime, e.inside);
    KeptStep(entry[0], [line] + rest, mime, e.inside);
    assert [] + Kept(rest, mime, e.inside) == Kept(rest, mime, e.inside);
    assert [] + Kept([line] + rest, mime, e.inside) == Kept([line] + rest, mime, e.inside);
  }

  lemma EndingKept(mime: string, app: string, e: Edit)
    requires Settable(mime, app) && Coherent(e)
    ensures Kept(Ending(mime, app, e), mime, e.inside) == if e.found then [] else [HEADER]
  {
    EntryReads(mime, app);
    HeaderReads();
    hide Kept, EntryFor, Trim, KeyOf;
    var entry := if e.wrote then [] else [EntryFor(mime, app)];
    KeptNone(mime, e.inside);
    KeptNone(mime, true);
    KeptStep(EntryFor(mime, app), [], mime, e.inside);
    KeptStep(EntryFor(mime, app), [], mime, true);
    assert [EntryFor(mime, app)] + [] == [EntryFor(mime, app)];
    KeptStep(HEADER, entry, mime, e.inside);
    assert [] + entry == entry;
    assert !Decides(HEADER, mime, e.inside) && Inside(HEADER, e.inside);
  }

  lemma KeptNone(mime: string, inside: bool)
    ensures Kept([], mime, inside) == []
  {
  }

  /** An edit keeps every other line, in order: nothing of the file is lost but the lines it
      replaces, and nothing comes in but the section when there was none. */
  lemma {:induction false} EditKeepsTheRest(ls: seq<string>, mime: string, app: string, e: Edit)
    requires Settable(mime, app) && Coherent(e)
    ensures Kept(SetFrom(ls, mime, app, e), mime, e.inside) ==
            Kept(ls, mime, e.inside) + if e.found || HasSection(ls) then [] else [HEADER]
  {
    if ls == [] {
      EndingKept(mime, app, e);
    } else {
      HeaderReads();
      hide Emitted, Settable, Trim, KeyOf, Decides;
      var next := Advanced(ls[0], mime, e);
      AdvancedIsCoherent(ls[0], mime, e);
      EditKeepsTheRest(ls[1..], mime, app, next);
      EmittedKept(ls[0], mime, app, e, SetFrom(ls[1..], mime, app, next));
    }
  }

  // ---------------------------------------------------------------------
  // The browser
  // ---------------------------------------------------------------------

  /** A type with none of the characters a line gives a meaning to. */
  predicate Plain(mime: string)
  {
    && mime != [] && !IsSpace(mime[0]) && !IsSpace(mime[|mime| - 1]) && mime[0] != '['
    && IndexOf(mime, '=') == |mime| && IndexOf(mime, '\n') == |mime|
  }

  lemma PlainIsSettable(mime: string, id: string)
    requires Plain(mime) && id != [] && Trim(id) == id && ';' !in id && '\n' !in id
    ensures Settable(mime, id)
  {
  }

  lemma {:induction false} IndexOfNone(s: string, c: char)
    requires forall i :: 0 <= i < |s| ==> s[i] != c
    ensures IndexOf(s, c) == |s|
  {
  }

  lemma HttpIsPlain()
    ensures Plain(HTTP)
  {
    hide IndexOf;
    IndexOfNone(HTTP, '=');
    IndexOfNone(HTTP, '\n');
  }

  lemma HttpsIsPlain()
    ensures Plain(HTTPS)
  {
    hide IndexOf;
    IndexOfNone(HTTPS, '=');
    IndexOfNone(HTTPS, '\n');
  }

  lemma HtmlIsPlain()
    ensures Plain(HTML)
  {
    hide IndexOf;
    IndexOfNone(HTML, '=');
    IndexOfNone(HTML, '\n');
  }

  lemma XhtmlIsPlain()
    ensures Plain(XHTML)
  {
    hide IndexOf;
    IndexOfNone(XHTML, '=');
    IndexOfNone(XHTML, '\n');
  }

  lemma BrowserTypesArePlain(i: nat)
    requires i < 4
    ensures Plain(BROWSER_TYPES[i])
  {
    HttpIsPlain();
    HttpsIsPlain();
    HtmlIsPlain();
    XhtmlIsPlain();
    hide Plain;
  }

  /** Sets every type a browser handles; all of them then read as it, and no other changes. */
  method SetBrowser(from: string, id: string) returns (text: string)
    requires id != [] && Trim(id) == id && ';' !in id && '\n' !in id
    ensures forall i :: 0 <= i < 4 ==> DefaultIn(text, BROWSER_TYPES[i]) == Some(id)
    ensures forall other :: other !in BROWSER_TYPES ==> DefaultIn(text, other) == DefaultIn(from, other)
  {
    hide DefaultIn, SetDefault, Settable, Plain, Trim;
    text := from;
    var i := 0;
    while i < 4
      invariant 0 <= i <= 4
      invariant forall k :: 0 <= k < i ==> DefaultIn(text, BROWSER_TYPES[k]) == Some(id)
      invariant forall other :: other !in BROWSER_TYPES ==> DefaultIn(text, other) == DefaultIn(from, other)
    {
      var mime := BROWSER_TYPES[i];
      BrowserTypesArePlain(i);
      PlainIsSettable(mime, id);
      ghost var before := text;
      text := WriteDefault(text, mime, id);
      forall other ensures other != mime ==> DefaultIn(text, other) == DefaultIn(before, other) {
        SetDefaultThenRead(before, mime, id, other);
      }
      SetDefaultThenRead(before, mime, id, mime);
      i := i + 1;
    }
  }
}

/** The host name in a TLS ClientHello: the reader that finds it, the segments it is put
    together from, and the hello as section 4.1.2 of RFC 8446 writes it. */
module Sni {
  import opened Common

  function U16(hi: byte, lo: byte): (n: nat)
    ensures n < 0x1_0000
  {
    hi as nat * 0x100 + lo as nat
  }

  function Be16(n: nat): (r: seq<byte>)
    requires n < 0x1_0000
    ensures |r| == 2 && U16(r[0], r[1]) == n
  {
    [(n / 0x100) as byte, (n % 0x100) as byte]
  }

  // ---------------------------------------------------------------------
  // UTF-8, as RFC 3629 allows it
  // ---------------------------------------------------------------------

  predicate Continues(b: byte) { 0x80 <= b < 0xC0 }

  /** How many bytes the character at the front takes, zero when it is none. */
  function CharLength(s: seq<byte>): (n: nat)
    ensures n <= |s|
  {
    if s == [] then 0
    else if s[0] < 0x80 then 1
    else if |s| >= 2 && 0xC2 <= s[0] < 0xE0 && Continues(s[1]) then 2
    else if |s| >= 3 && 0xE0 <= s[0] < 0xF0 && Continues(s[1]) && Continues(s[2])
            && (s[0] == 0xE0 ==> 0xA0 <= s[1]) && (s[0] == 0xED ==> s[1] < 0xA0) then 3
    else if |s| >= 4 && 0xF0 <= s[0] < 0xF5 && Continues(s[1]) && Continues(s[2]) && Continues(s[3])
            && (s[0] == 0xF0 ==> 0x90 <= s[1]) && (s[0] == 0xF4 ==> s[1] < 0x90) then 4
    else 0
  }

  predicate ValidUtf8(s: seq<byte>)
    decreases |s|
  {
    s == [] || (CharLength(s) > 0 && ValidUtf8(s[CharLength(s)..]))
  }

  /** A Unicode scalar value: any code point but a surrogate. */
  predicate IsScalar(cp: nat)
  {
    cp < 0xD800 || 0xE000 <= cp < 0x11_0000
  }

  /** How UTF-8 writes it (section 3 of RFC 3629). */
  function Utf8(cp: nat): (r: seq<byte>)
    requires IsScalar(cp)
  {
    if cp < 0x80 then [cp as byte]
    else if cp < 0x800 then [(0xC0 + cp / 0x40) as byte, (0x80 + cp % 0x40) as byte]
    else if cp < 0x1_0000 then
      [(0xE0 + cp / 0x1000) as byte, (0x80 + cp / 0x40 % 0x40) as byte, (0x80 + cp % 0x40) as byte]
    else
      [(0xF0 + cp / 0x4_0000) as byte, (0x80 + cp / 0x1000 % 0x40) as byte, (0x80 + cp / 0x40 % 0x40) as byte,
       (0x80 + cp % 0x40) as byte]
  }

  lemma WrittenIsACharacter(cp: nat, rest: seq<byte>)
    requires IsScalar(cp)
    ensures CharLength(Utf8(cp) + rest) == |Utf8(cp)|
  {
    var s := Utf8(cp) + rest;
    assert forall i :: 0 <= i < |Utf8(cp)| ==> s[i] == Utf8(cp)[i];
  }

  lemma ShortIsWritten(s: seq<byte>) returns (cp: nat)
    requires 0 < CharLength(s) <= 2
    ensures IsScalar(cp) && s[..CharLength(s)] == Utf8(cp)
  {
    cp := if CharLength(s) == 1 then s[0] as nat else (s[0] as nat - 0xC0) * 0x40 + (s[1] as nat - 0x80);
  }

  lemma ThreeAreWritten(s: seq<byte>) returns (cp: nat)
    requires CharLength(s) == 3
    ensures IsScalar(cp) && s[..3] == Utf8(cp)
  {
    var a, b, c := s[0] as nat - 0xE0, s[1] as nat - 0x80, s[2] as nat - 0x80;
    cp := a * 0x1000 + b * 0x40 + c;
    assert cp / 0x40 == a * 0x40 + b && cp / 0x1000 == a;
  }

  lemma FourAreWritten(s: seq<byte>) returns (cp: nat)
    requires CharLength(s) == 4
    ensures IsScalar(cp) && s[..4] == Utf8(cp)
  {
    var a, b, c, d := s[0] as nat - 0xF0, s[1] as nat - 0x80, s[2] as nat - 0x80, s[3] as nat - 0x80;
    cp := a * 0x4_0000 + b * 0x1000 + c * 0x40 + d;
    assert cp / 0x40 == a * 0x1000 + b * 0x40 + c && cp / 0x1000 == a * 0x40 + b && cp / 0x4_0000 == a;
  }

  lemma AtMostFour(s: seq<byte>)
    ensures CharLength(s) <= 4
  {
  }

  /** What is taken for a character is one scalar value, written out. */
  lemma CharacterIsWritten(s: seq<byte>) returns (cp: nat)
    requires CharLength(s) > 0
    ensures IsScalar(cp) && s[..CharLength(s)] == Utf8(cp)
  {
    hide CharLength, Utf8, IsScalar;
    AtMostFour(s);
    if CharLength(s) <= 2 {
      cp := ShortIsWritten(s);
    } else if CharLength(s) == 3 {
      cp := ThreeAreWritten(s);
    } else {
      cp := FourAreWritten(s);
    }
  }

  function Text(cps: seq<nat>): (r: seq<byte>)
    requires forall i :: 0 <= i < |cps| ==> IsScalar(cps[i])
  {
    if cps == [] then [] else Utf8(cps[0]) + Text(cps[1..])
  }

  ghost predicate IsText(s: seq<byte>, cps: seq<nat>)
  {
    (forall i :: 0 <= i < |cps| ==> IsScalar(cps[i])) && s == Text(cps)
  }

  lemma {:induction false} TextIsValid(cps: seq<nat>)
    requires forall i :: 0 <= i < |cps| ==> IsScalar(cps[i])
    ensures ValidUtf8(Text(cps))
  {
    if cps != [] {
      hide Utf8, CharLength;
      TextIsValid(cps[1..]);
      WrittenIsACharacter(cps[0], Text(cps[1..]));
      NotNothing(cps[0]);
      assert (Utf8(cps[0]) + Text(cps[1..]))[|Utf8(cps[0])|..] == Text(cps[1..]);
    }
  }

  lemma NotNothing(cp: nat)
    requires IsScalar(cp)
    ensures |Utf8(cp)| > 0
  {
  }

  lemma {:induction false} ValidIsText(s: seq<byte>) returns (cps: seq<nat>)
    requires ValidUtf8(s)
    ensures IsText(s, cps)
    decreases |s|
  {
    hide Utf8, CharLength, IsScalar;
    cps := [];
    if s != [] {
      var n := CharLength(s);
      var cp := CharacterIsWritten(s);
      var rest := ValidIsText(s[n..]);
      cps := [cp] + rest;
      assert cps[1..] == rest && s == s[..n] + s[n..];
    }
  }

  /** Bytes are taken for text exactly when they are scalar values written out in UTF-8. */
  lemma ValidExactlyWhenText(s: seq<byte>)
    ensures ValidUtf8(s) <==> exists cps :: IsText(s, cps)
  {
    if ValidUtf8(s) {
      var cps := ValidIsText(s);
    }
    if cps :| IsText(s, cps) {
      TextIsValid(cps);
    }
  }

  /** Host names are ASCII, so they are always text. */
  lemma {:induction false} AsciiIsValid(s: seq<byte>)
    requires forall i :: 0 <= i < |s| ==> s[i] < 0x80
    ensures ValidUtf8(s)
  {
    if s != [] { AsciiIsValid(s[1..]); }
  }

  // ---------------------------------------------------------------------
  // The reader
  // ---------------------------------------------------------------------

  /** The name in a server_name extension whose data is `len` bytes at `pos`. */
  function NameAt(hs: seq<byte>, pos: nat, len: nat): (r: Option<seq<byte>>)
    requires pos <= |hs|
  {
    if len >= 5 && pos + len <= |hs| && hs[pos + 2] == 0 then
      var n := U16(hs[pos + 3], hs[pos + 4]);
      if pos + 5 + n <= |hs| && ValidUtf8(hs[pos + 5..pos + 5 + n]) then Some(hs[pos + 5..pos + 5 + n]) else None
    else None
  }

  function Scan(hs: seq<byte>, pos: nat, end: nat): (r: Option<seq<byte>>)
    decreases |hs| - pos
  {
    if pos + 4 <= end && pos + 4 <= |hs| then
      var len := U16(hs[pos + 2], hs[pos + 3]);
      if U16(hs[pos], hs[pos + 1]) == 0 then NameAt(hs, pos + 4, len)
      else Scan(hs, pos + 4 + len, end)
    else None
  }

  /** Where the extensions start and end, when the fields before them are all there. */
  function ExtensionsOf(hs: seq<byte>): (r: Option<(nat, nat)>)
  {
    if |hs| <= 38 then None else
      var suites := 39 + hs[38] as nat;
      if suites + 2 > |hs| then None else
        var methods := suites + 2 + U16(hs[suites], hs[suites + 1]);
        if methods >= |hs| then None else
          var exts := methods + 1 + hs[methods] as nat;
          if exts + 2 > |hs| then None
          else Some((exts + 2, exts + 2 + U16(hs[exts], hs[exts + 1])))
  }

  function SniOf(data: seq<byte>): (r: Option<seq<byte>>)
  {
    if |data| < 5 || data[0] != 0x16 || |data| < 5 + U16(data[3], data[4]) then None
    else
      var hs := data[5..];
      if hs == [] || hs[0] != 0x01 then None
      else match ExtensionsOf(hs)
        case None => None
        case Some((pos, end)) => Scan(hs, pos, end)
  }

  /** No byte is read that is not there, whatever the input. */
  method ExtractSni(data: seq<byte>) returns (name: Option<seq<byte>>)
    ensures name == SniOf(data)
  {
    hide Scan;
    if |data| < 5 || data[0] != 0x16 {
      return None;
    }
    var recordLen := U16(data[3], data[4]);
    if |data| < 5 + recordLen {
      return None;
    }
    var hs := data[5..];
    if hs == [] || hs[0] != 0x01 {
      return None;
    }
    if |hs| < 38 {
      return None;
    }
    var pos := 38;
    if pos >= |hs| {
      return None;
    }
    pos := pos + 1 + hs[pos] as nat;
    if pos + 2 > |hs| {
      return None;
    }
    pos := pos + 2 + U16(hs[pos], hs[pos + 1]);
    if pos >= |hs| {
      return None;
    }
    pos := pos + 1 + hs[pos] as nat;
    if pos + 2 > |hs| {
      return None;
    }
    var end := pos + 2 + U16(hs[pos], hs[pos + 1]);
    name := ScanExtensions(hs, pos + 2, end);
  }

  /** The walk over the extensions, up to the first server_name. */
  method ScanExtensions(hs: seq<byte>, start: nat, end: nat) returns (name: Option<seq<byte>>)
    ensures name == Scan(hs, start, end)
  {
    hide Scan, U16, ValidUtf8;
    var pos := start;
    while pos + 4 <= end && pos + 4 <= |hs|
      invariant start <= pos
      invariant Scan(hs, start, end) == Scan(hs, pos, end)
      decreases |hs| - pos
    {
      ScanOne(hs, pos, end);
      var kind := U16(hs[pos], hs[pos + 1]);
      var len := U16(hs[pos + 2], hs[pos + 3]);
      pos := pos + 4;
      if kind == 0 {
        if len >= 5 && pos + len <= |hs| {
          if hs[pos + 2] == 0 {
            var n := U16(hs[pos + 3], hs[pos + 4]);
            if pos + 5 + n <= |hs| {
              return if ValidUtf8(hs[pos + 5..pos + 5 + n]) then Some(hs[pos + 5..pos + 5 + n]) else None;
            }
          }
        }
        return None;
      }
      pos := pos + len;
    }
    ScanEnds(hs, pos, end);
    return None;
  }

  lemma ScanOne(hs: seq<byte>, pos: nat, end: nat)
    requires pos + 4 <= end && pos + 4 <= |hs|
    ensures var len := U16(hs[pos + 2], hs[pos + 3]);
            Scan(hs, pos, end) == if U16(hs[pos], hs[pos + 1]) == 0 then NameAt(hs, pos + 4, len)
                                  else Scan(hs, pos + 4 + len, end)
  {
    hide U16, NameAt;
  }

  lemma ScanEnds(hs: seq<byte>, pos: nat, end: nat)
    requires end < pos + 4 || |hs| < pos + 4
    ensures Scan(hs, pos, end) == None
  {
  }

  // ---------------------------------------------------------------------
  // The hello
  // ---------------------------------------------------------------------

  datatype Extension = Extension(kind: nat, data: seq<byte>) {
    predicate Valid() { kind < 0x1_0000 && |data| < 0x1_0000 }
  }

  function Written(e: Extension): (r: seq<byte>)
    requires e.Valid()
  {
    Be16(e.kind) + Be16(|e.data|) + e.data
  }

  function AllWritten(es: seq<Extension>): (r: seq<byte>)
    requires forall i :: 0 <= i < |es| ==> es[i].Valid()
  {
    if es == [] then [] else Written(es[0]) + AllWritten(es[1..])
  }

  datatype ClientHello = ClientHello(
    version: seq<byte>, random: seq<byte>, sessionId: seq<byte>,
    cipherSuites: seq<byte>, compression: seq<byte>, extensions: seq<Extension>)
  {
    predicate Valid()
    {
      && |version| == 2 && |random| == 32 && |sessionId| < 0x100
      && |cipherSuites| < 0x1_0000 && |compression| < 0x100
      && (forall i :: 0 <= i < |extensions| ==> extensions[i].Valid())
      && |AllWritten(extensions)| < 0x1_0000
      && 4 + |Body()| < 0x1_0000
    }

    function Extensions(): (r: seq<byte>)
      requires forall i :: 0 <= i < |extensions| ==> extensions[i].Valid()
      requires |AllWritten(extensions)| < 0x1_0000
    {
      Be16(|AllWritten(extensions)|) + AllWritten(extensions)
    }

    function Body(): (r: seq<byte>)
      requires |version| == 2 && |random| == 32 && |sessionId| < 0x100
      requires |cipherSuites| < 0x1_0000 && |compression| < 0x100
      requires forall i :: 0 <= i < |extensions| ==> extensions[i].Valid()
      requires |AllWritten(extensions)| < 0x1_0000
    {
      version + random + ([|sessionId| as byte] + sessionId + (Be16(|cipherSuites|) + cipherSuites +
        ([|compression| as byte] + compression + Extensions())))
    }

    /** The handshake message: its type, its length in three bytes, its body. */
    function Handshake(): (r: seq<byte>)
      requires Valid()
    {
      [0x01] + ([0] + Be16(|Body()|)) + Body()
    }

    /** The one TLS record that carries it (section 5.1 of RFC 8446). */
    function Record(recordVersion: seq<byte>): (r: seq<byte>)
      requires Valid() && |recordVersion| == 2
    {
      [0x16] + recordVersion + Be16(|Handshake()|) + Handshake()
    }
  }

  /** A server_name extension (section 3 of RFC 6066): a list whose first entry is a host name. */
  function ServerName(host: seq<byte>, more: seq<byte>): (e: Extension)
    requires 5 + |host| + |more| < 0x1_0000
    ensures e.Valid() && e.kind == 0
  {
    Extension(0, Be16(3 + |host| + |more|) + ([0] + Be16(|host|) + host) + more)
  }

  /** What a hello asks for: the host of its first server_name extension. */
  ghost predicate AsksFor(es: seq<Extension>, host: seq<byte>)
  {
    exists i: nat, more :: AsksForAt(es, host, i, more)
  }

  ghost predicate AsksForAt(es: seq<Extension>, host: seq<byte>, i: nat, more: seq<byte>)
  {
    && i < |es| && 5 + |host| + |more| < 0x1_0000
    && es[i] == ServerName(host, more)
    && forall j :: 0 <= j < i ==> es[j].kind != 0
  }

  lemma FieldAt(hs: seq<byte>, pos: nat, data: seq<byte>, rest: seq<byte>)
    requires pos <= |hs| && |data| < 0x1_0000 && hs[pos..] == Be16(|data|) + data + rest
    ensures pos + 2 + |data| <= |hs|
    ensures U16(hs[pos], hs[pos + 1]) == |data|
    ensures hs[pos + 2..pos + 2 + |data|] == data && hs[pos + 2 + |data|..] == rest
  {
    hide Be16, U16;
    var s := hs[pos..];
    var head := Be16(|data|);
    assert s == head + (data + rest);
    assert s[0] == head[0] && s[1] == head[1];
    assert s[0] == hs[pos] && s[1] == hs[pos + 1];
    assert s[2..] == hs[pos + 2..] == data + rest;
    assert (data + rest)[..|data|] == data && (data + rest)[|data|..] == rest;
    assert hs[pos + 2..][|data|..] == hs[pos + 2 + |data|..];
    assert hs[pos + 2..][..|data|] == hs[pos + 2..pos + 2 + |data|];
  }

  lemma ShortFieldAt(hs: seq<byte>, pos: nat, data: seq<byte>, rest: seq<byte>)
    requires pos <= |hs| && |data| < 0x100 && hs[pos..] == [|data| as byte] + data + rest
    ensures pos + 1 + |data| <= |hs|
    ensures hs[pos] as nat == |data| && hs[pos + 1 + |data|..] == rest
  {
    var s := hs[pos..];
    assert s == [|data| as byte] + (data + rest);
    assert s[0] == hs[pos];
    assert s[1..] == hs[pos + 1..] == data + rest;
    assert (data + rest)[|data|..] == rest;
    assert hs[pos + 1..][|data|..] == hs[pos + 1 + |data|..];
  }

  /** An extension written at `pos` is read back: its kind, its length, its data. */
  lemma ExtensionAt(hs: seq<byte>, pos: nat, e: Extension, rest: seq<byte>)
    requires e.Valid() && pos <= |hs| && hs[pos..] == Written(e) + rest
    ensures pos + 4 + |e.data| <= |hs|
    ensures U16(hs[pos], hs[pos + 1]) == e.kind && U16(hs[pos + 2], hs[pos + 3]) == |e.data|
    ensures hs[pos + 4..pos + 4 + |e.data|] == e.data && hs[pos + 4 + |e.data|..] == rest
  {
    hide Be16, U16;
    var s, kind := hs[pos..], Be16(e.kind);
    var tail := Be16(|e.data|) + e.data + rest;
    assert s == kind + tail;
    assert s[0] == kind[0] && s[1] == kind[1];
    assert s[0] == hs[pos] && s[1] == hs[pos + 1];
    assert s[2..] == hs[pos + 2..] == tail;
    FieldAt(hs, pos + 2, e.data, rest);
  }

  lemma NameIsRead(hs: seq<byte>, pos: nat, host: seq<byte>, more: seq<byte>)
    requires 5 + |host| + |more| < 0x1_0000
    requires var data := ServerName(host, more).data;
             pos + |data| <= |hs| && hs[pos..pos + |data|] == data
    ensures NameAt(hs, pos, |ServerName(host, more).data|) == if ValidUtf8(host) then Some(host) else None
  {
    hide Be16, U16, ValidUtf8;
    var data := ServerName(host, more).data;
    var list, name := Be16(3 + |host| + |more|), Be16(|host|);
    assert data == list + ([0] + name + host) + more;
    assert data[2] == 0 && data[3] == name[0] && data[4] == name[1];
    assert data[5..5 + |host|] == host;
    forall i | 0 <= i < |data| ensures hs[pos + i] == data[i] { assert hs[pos..pos + |data|][i] == data[i]; }
    assert hs[pos + 2] == 0 && hs[pos + 3] == name[0] && hs[pos + 4] == name[1];
    assert hs[pos + 5..pos + 5 + |host|] == data[5..5 + |host|];
  }

  /** The scan passes over an extension that is no server_name. */
  lemma ScanPasses(hs: seq<byte>, pos: nat, e: Extension, tail: seq<byte>, rest: seq<byte>)
    requires e.Valid() && pos <= |hs| && hs[pos..] == Written(e) + (tail + rest)
    ensures |Written(e)| == 4 + |e.data|
    ensures pos + |Written(e)| <= |hs| && hs[pos + |Written(e)|..] == tail + rest
    ensures var end := pos + |Written(e)| + |tail|;
            && (e.kind != 0 ==> Scan(hs, pos, end) == Scan(hs, pos + |Written(e)|, end))
            && (e.kind == 0 ==> Scan(hs, pos, end) == NameAt(hs, pos + 4, |e.data|))
            && hs[pos + 4..pos + 4 + |e.data|] == e.data
  {
    hide NameAt, U16, Be16, Scan;
    ExtensionAt(hs, pos, e, tail + rest);
    ScanOne(hs, pos, pos + |Written(e)| + |tail|);
  }

  lemma FirstWritten(es: seq<Extension>, rest: seq<byte>)
    requires es != [] && forall i :: 0 <= i < |es| ==> es[i].Valid()
    ensures AllWritten(es) + rest == Written(es[0]) + (AllWritten(es[1..]) + rest)
    ensures |AllWritten(es)| == |Written(es[0])| + |AllWritten(es[1..])|
  {
    var first, tail := Written(es[0]), AllWritten(es[1..]);
    assert first + tail + rest == first + (tail + rest);
  }

  lemma NoneWritten()
    ensures AllWritten([]) == []
  {
  }

  lemma {:induction false} ScanFindsNothing(hs: seq<byte>, pos: nat, es: seq<Extension>, rest: seq<byte>)
    requires forall i :: 0 <= i < |es| ==> es[i].Valid()
    requires pos <= |hs| && hs[pos..] == AllWritten(es) + rest
    requires forall i :: 0 <= i < |es| ==> es[i].kind != 0
    ensures Scan(hs, pos, pos + |AllWritten(es)|) == None
    decreases |es|
  {
    hide Scan, Written, AllWritten;
    if es == [] {
      NoneWritten();
      ScanEnds(hs, pos, pos);
    } else {
      var e := es[0];
      FirstWritten(es, rest);
      ScanPasses(hs, pos, e, AllWritten(es[1..]), rest);
      ScanFindsNothing(hs, pos + |Written(e)|, es[1..], rest);
    }
  }

  /** The scan of written extensions finds the host of the first server_name. */
  lemma {:induction false} ScanFinds(hs: seq<byte>, pos: nat, es: seq<Extension>, rest: seq<byte>,
                                     i: nat, host: seq<byte>, more: seq<byte>)
    requires forall k :: 0 <= k < |es| ==> es[k].Valid()
    requires pos <= |hs| && hs[pos..] == AllWritten(es) + rest
    requires AsksForAt(es, host, i, more)
    ensures Scan(hs, pos, pos + |AllWritten(es)|) == if ValidUtf8(host) then Some(host) else None
    decreases |es|
  {
    hide Scan, NameAt, ValidUtf8, AllWritten, ServerName, Written;
    var e := es[0];
    FirstWritten(es, rest);
    ScanPasses(hs, pos, e, AllWritten(es[1..]), rest);
    if i == 0 {
      NameIsRead(hs, pos + 4, host, more);
    } else {
      ScanFinds(hs, pos + |Written(e)|, es[1..], rest, i - 1, host, more);
    }
  }

  /** The fields of a hello, from the session id on. */
  lemma FieldsAreRead(hs: seq<byte>, front: seq<byte>, sessionId: seq<byte>, suites: seq<byte>,
                      methods: seq<byte>, exts: seq<byte>, rest: seq<byte>)
    requires |front| == 38 && |sessionId| < 0x100 && |suites| < 0x1_0000 && |methods| < 0x100 && |exts| < 0x1_0000
    requires hs == front + ([|sessionId| as byte] + sessionId + (Be16(|suites|) + suites +
                     ([|methods| as byte] + methods + (Be16(|exts|) + exts + rest))))
    ensures ExtensionsOf(hs).Some?
    ensures var (pos, end) := ExtensionsOf(hs).value;
            end == pos + |exts| && pos <= |hs| && hs[pos..] == exts + rest
  {
    hide Be16, U16, ExtensionsOf;
    var d := Be16(|exts|) + exts + rest;
    var c := [|methods| as byte] + methods + d;
    var b := Be16(|suites|) + suites + c;
    var a := [|sessionId| as byte] + sessionId + b;
    assert hs[38..] == a;
    ShortFieldAt(hs, 38, sessionId, b);
    var p := 39 + |sessionId|;
    FieldAt(hs, p, suites, c);
    var q := p + 2 + |suites|;
    ShortFieldAt(hs, q, methods, d);
    var r := q + 1 + |methods|;
    FieldAt(hs, r, exts, rest);
    ExtensionsAt(hs, p, q, r);
    assert hs[r..][2..] == hs[r + 2..];
    AfterTwo(Be16(|exts|), exts, rest);
  }

  lemma AfterTwo(head: seq<byte>, a: seq<byte>, b: seq<byte>)
    requires |head| == 2
    ensures (head + a + b)[2..] == a + b
  {
  }

  lemma ExtensionsAt(hs: seq<byte>, p: nat, q: nat, r: nat)
    requires |hs| > 38 && p == 39 + hs[38] as nat && p + 2 <= |hs|
    requires q == p + 2 + U16(hs[p], hs[p + 1]) && q < |hs|
    requires r == q + 1 + hs[q] as nat && r + 2 <= |hs|
    ensures ExtensionsOf(hs) == Some((r + 2, r + 2 + U16(hs[r], hs[r + 1])))
  {
    hide U16;
  }

  lemma HelloFields(ch: ClientHello, rest: seq<byte>)
    requires ch.Valid()
    ensures var hs := ch.Handshake() + rest;
            && |hs| > 0 && hs[0] == 0x01
            && ExtensionsOf(hs).Some?
            && var (pos, end) := ExtensionsOf(hs).value;
               && end == pos + |AllWritten(ch.extensions)|
               && pos <= |hs| && hs[pos..] == AllWritten(ch.extensions) + rest
  {
    hide Be16, U16, AllWritten, ExtensionsOf;
    var hs := ch.Handshake() + rest;
    var exts := AllWritten(ch.extensions);
    var front := [0x01] + ([0] + Be16(|ch.Body()|)) + ch.version + ch.random;
    var d, d' := Be16(|exts|) + exts, Be16(|exts|) + exts + rest;
    var c, c' := [|ch.compression| as byte] + ch.compression + d, [|ch.compression| as byte] + ch.compression + d';
    var b, b' := Be16(|ch.cipherSuites|) + ch.cipherSuites + c, Be16(|ch.cipherSuites|) + ch.cipherSuites + c';
    var a, a' := [|ch.sessionId| as byte] + ch.sessionId + b, [|ch.sessionId| as byte] + ch.sessionId + b';
    assert c' == c + rest;
    assert b' == b + rest;
    assert a' == a + rest;
    assert ch.Body() == ch.version + ch.random + a;
    assert hs == front + a';
    FieldsAreRead(hs, front, ch.sessionId, ch.cipherSuites, ch.compression, exts, rest);
  }

  lemma FirstName(es: seq<Extension>, host: seq<byte>) returns (i: nat, more: seq<byte>)
    requires AsksFor(es, host)
    ensures AsksForAt(es, host, i, more)
  {
    i, more :| AsksForAt(es, host, i, more);
  }

  /** For every well-formed hello in one record, with anything after it, the reader finds
      exactly the host it asks for. */
  lemma HelloIsRead(ch: ClientHello, recordVersion: seq<byte>, rest: seq<byte>, host: seq<byte>)
    requires ch.Valid() && |recordVersion| == 2 && AsksFor(ch.extensions, host)
    ensures SniOf(ch.Record(recordVersion) + rest) == if ValidUtf8(host) then Some(host) else None
  {
    hide *;
    var i, more := FirstName(ch.extensions, host);
    ReaderScans(ch, recordVersion, rest);
    var (pos, end) := ExtensionsOf(ch.Handshake() + rest).value;
    ScanFinds(ch.Handshake() + rest, pos, ch.extensions, rest, i, host, more);
  }

  /** And nothing when it asks for none. */
  lemma HelloWithoutNameIsRead(ch: ClientHello, recordVersion: seq<byte>, rest: seq<byte>)
    requires ch.Valid() && |recordVersion| == 2
    requires forall i :: 0 <= i < |ch.extensions| ==> ch.extensions[i].kind != 0
    ensures SniOf(ch.Record(recordVersion) + rest) == None
  {
    hide *;
    ReaderScans(ch, recordVersion, rest);
    var (pos, end) := ExtensionsOf(ch.Handshake() + rest).value;
    ScanFindsNothing(ch.Handshake() + rest, pos, ch.extensions, rest);
  }

  /** On a hello, the reader comes to the scan of its extensions. */
  lemma ReaderScans(ch: ClientHello, recordVersion: seq<byte>, rest: seq<byte>)
    requires ch.Valid() && |recordVersion| == 2
    ensures forall i :: 0 <= i < |ch.extensions| ==> ch.extensions[i].Valid()
    ensures ExtensionsOf(ch.Handshake() + rest).Some?
    ensures var hs := ch.Handshake() + rest;
            var (pos, end) := ExtensionsOf(hs).value;
            && pos <= |hs| && hs[pos..] == AllWritten(ch.extensions) + rest
            && end == pos + |AllWritten(ch.extensions)|
            && SniOf(ch.Record(recordVersion) + rest) == Scan(hs, pos, end)
  {
    hide Scan, ExtensionsOf, AllWritten, U16, ClientHello.Handshake, ClientHello.Record, ClientHello.Body;
    RecordHeader(ch, recordVersion, rest);
    HelloFields(ch, rest);
  }

  lemma RecordHeader(ch: ClientHello, recordVersion: seq<byte>, rest: seq<byte>)
    requires ch.Valid() && |recordVersion| == 2
    ensures var data := ch.Record(recordVersion) + rest;
            && |data| >= 5 && data[0] == 0x16
            && U16(data[3], data[4]) == |ch.Handshake()|
            && data[5..] == ch.Handshake() + rest
            && |ch.Record(recordVersion)| == 5 + |ch.Handshake()|
  {
    hide Be16, U16;
    var data := ch.Record(recordVersion) + rest;
    var len := Be16(|ch.Handshake()|);
    assert data == ([0x16] + recordVersion + len) + (ch.Handshake() + rest);
    assert data[3] == len[0] && data[4] == len[1];
  }

  // ---------------------------------------------------------------------
  // Segments
  // ---------------------------------------------------------------------

  /** The record header is there and says there is more to come. */
  predicate NeedsMore(buf: seq<byte>)
  {
    |buf| >= 5 && |buf| < 5 + U16(buf[3], buf[4])
  }

  /** Segments are taken one at a time, as long as what there is needs more. */
  ghost predicate StopsAt(segments: seq<seq<byte>>, used: nat)
  {
    && 1 <= used <= |segments|
    && (forall k :: 1 <= k < used ==> NeedsMore(Concat(segments[..k])))
    && (used < |segments| ==> !NeedsMore(Concat(segments[..used])))
  }

  lemma FirstSegment(segments: seq<seq<byte>>)
    requires segments != []
    ensures Concat(segments[..1]) == segments[0]
  {
    assert segments[..1] == [segments[0]] && [segments[0]][1..] == [];
  }

  /** Receives segments until the first record is complete, none is left, or the first one
      was too short to tell. None when the connection closes before any. */
  method Reassemble(segments: seq<seq<byte>>) returns (buf: Option<seq<byte>>, ghost used: nat)
    ensures buf.None? <==> segments == []
    ensures buf.Some? ==> StopsAt(segments, used) && buf.value == Concat(segments[..used])
  {
    used := 0;
    if segments == [] {
      return None, 0;
    }
    var tls := segments[0];
    var next := 1;
    hide U16, Concat;
    FirstSegment(segments);
    while |tls| >= 5
      invariant 1 <= next <= |segments|
      invariant tls == Concat(segments[..next])
      invariant forall k :: 1 <= k < next ==> NeedsMore(Concat(segments[..k]))
      decreases |segments| - next
    {
      var recordLen := U16(tls[3], tls[4]);
      if |tls| >= 5 + recordLen {
        break;
      }
      if next == |segments| {
        break;
      }
      assert segments[..next + 1] == segments[..next] + [segments[next]];
      ConcatOneMore(segments[..next], segments[next]);
      tls := tls + segments[next];
      next := next + 1;
    }
    return Some(tls), next;
  }

  /** The host a connection names, from the segments it sends. */
  method HostOf(segments: seq<seq<byte>>) returns (name: Option<seq<byte>>, ghost used: nat)
    ensures segments == [] ==> name == None
    ensures segments != [] ==> StopsAt(segments, used) && name == SniOf(Concat(segments[..used]))
  {
    var buf;
    buf, used := Reassemble(segments);
    if buf.None? {
      return None, used;
    }
    name := ExtractSni(buf.value);
  }

  lemma {:induction false} ConcatIsPrefix(segments: seq<seq<byte>>, k: nat)
    requires k <= |segments|
    ensures Concat(segments[..k]) <= Concat(segments)
    decreases |segments|
  {
    if k < |segments| {
      var n := |segments| - 1;
      assert segments[..n][..k] == segments[..k];
      ConcatIsPrefix(segments[..n], k);
      assert segments == segments[..n] + [segments[n]];
      ConcatOneMore(segments[..n], segments[n]);
    } else {
      assert segments[..k] == segments;
    }
  }

  /** For every way to cut the stream into segments, the host is found exactly when the
      first segment holds the record header. */
  lemma FirstSegmentDecides(ch: ClientHello, recordVersion: seq<byte>, rest: seq<byte>, host: seq<byte>,
                            segments: seq<seq<byte>>, used: nat)
    requires ch.Valid() && |recordVersion| == 2 && AsksFor(ch.extensions, host) && ValidUtf8(host)
    requires StopsAt(segments, used) && Concat(segments) == ch.Record(recordVersion) + rest
    ensures SniOf(Concat(segments[..used])) == if |segments[0]| >= 5 then Some(host) else None
  {
    var buf := Concat(segments[..used]);
    FirstSegment(segments);
    if |segments[0]| < 5 {
      assert !NeedsMore(Concat(segments[..1]));
    } else {
      RecordIsThere(ch, recordVersion, rest, segments, used);
      var record := ch.Record(recordVersion);
      HelloIsRead(ch, recordVersion, buf[|record|..], host);
    }
  }

  /** A hello for the host "a". */
  function SmallHello(): (ch: ClientHello)
  {
    ClientHello([3, 3], seq(32, _ => 0), [], [0x13, 0x01], [0], [ServerName([0x61], [])])
  }

  lemma SmallHelloIsValid()
    ensures SmallHello().Valid() && |SmallHello().Record([3, 1])| > 5
  {
    hide Be16;
    var name := ServerName([0x61], []);
    assert [name][1..] == [] && AllWritten([name]) == Written(name) + AllWritten([]);
    assert |AllWritten([name])| == 10;
  }

  /** Cut after its fourth byte it gives no host, though the whole of it does. */
  lemma ShortFirstSegmentHidesTheHost() returns (segments: seq<seq<byte>>)
    ensures SmallHello().Valid() && AsksFor(SmallHello().extensions, [0x61]) && ValidUtf8([0x61])
    ensures Concat(segments) == SmallHello().Record([3, 1]) && StopsAt(segments, 1)
    ensures SniOf(Concat(segments[..1])) == None && SniOf(Concat(segments)) == Some([0x61])
  {
    var ch := SmallHello();
    SmallHelloIsValid();
    var record := ch.Record([3, 1]);
    assert AsksForAt(ch.extensions, [0x61], 0, []);
    AsciiIsValid([0x61]);
    HelloIsRead(ch, [3, 1], [], [0x61]);
    hide *;
    assert record + [] == record;
    segments := [record[..4], record[4..]];
    TwoSegments(record);
  }

  lemma TwoSegments(record: seq<byte>)
    requires |record| > 5
    ensures var segments := [record[..4], record[4..]];
            && Concat(segments) == record && StopsAt(segments, 1) && SniOf(Concat(segments[..1])) == None
  {
    var segments := [record[..4], record[4..]];
    FirstSegment(segments);
    assert Concat(segments) == record[..4] + Concat(segments[1..]);
    assert segments[1..] == [record[4..]] && Concat([record[4..]]) == record[4..] + Concat([record[4..]][1..]);
  }

  /** No more segments are taken than the record needs. */
  lemma TakesNoMoreThanNeeded(ch: ClientHello, recordVersion: seq<byte>, rest: seq<byte>,
                              segments: seq<seq<byte>>, used: nat)
    requires ch.Valid() && |recordVersion| == 2
    requires StopsAt(segments, used) && Concat(segments) == ch.Record(recordVersion) + rest && used > 1
    ensures |Concat(segments[..used - 1])| < |ch.Record(recordVersion)|
  {
    hide U16, Concat;
    var buf, all := Concat(segments[..used - 1]), Concat(segments);
    ConcatIsPrefix(segments, used - 1);
    RecordHeader(ch, recordVersion, rest);
    assert NeedsMore(buf);
    assert buf[3] == all[3] && buf[4] == all[4];
  }

  /** A hello cut anywhere gives no host. */
  lemma CutHelloIsNotRead(ch: ClientHello, recordVersion: seq<byte>, n: nat)
    requires ch.Valid() && |recordVersion| == 2 && n < |ch.Record(recordVersion)|
    ensures SniOf(ch.Record(recordVersion)[..n]) == None
  {
    hide U16;
    var record := ch.Record(recordVersion);
    RecordHeader(ch, recordVersion, []);
    assert record + [] == record;
  }

  lemma RecordIsThere(ch: ClientHello, recordVersion: seq<byte>, rest: seq<byte>, segments: seq<seq<byte>>, used: nat)
    requires ch.Valid() && |recordVersion| == 2
    requires StopsAt(segments, used) && Concat(segments) == ch.Record(recordVersion) + rest
    requires |Concat(segments[..1])| >= 5
    ensures var buf, record := Concat(segments[..used]), ch.Record(recordVersion);
            |record| <= |buf| && buf == record + buf[|record|..]
  {
    hide U16, Concat;
    var buf, record, all := Concat(segments[..used]), ch.Record(recordVersion), Concat(segments);
    ConcatIsPrefix(segments, used);
    assert segments[..used][..1] == segments[..1];
    ConcatIsPrefix(segments[..used], 1);
    RecordHeader(ch, recordVersion, rest);
    if used == |segments| { assert segments[..used] == segments; }
    assert buf[3] == all[3] && buf[4] == all[4];
    assert buf[..|record|] == all[..|record|] == record;
  }
}

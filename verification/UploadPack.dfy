/**
  The request and advertisement sides of the Git smart-HTTP protocol: reading
  the lines of an upload-pack request, and writing a ref advertisement from
  upstream branch data that reads back as exactly that data.
*/
module UploadPack {
  import opened Wrappers
  import opened PktLine

  // ------------------------------------------------------------- reading a body

  /**
    The lines of a body in order.  Flush packets are skipped, lines that are
    not text are passed over, and reading ends quietly at the first header that
    is no length, announces less than a header, or reaches past the end.
  */
  function Lines(body: Bytes, isText: Bytes -> bool): seq<Bytes>
    decreases |body|
  {
    if |body| < 4 then []
    else
      match ParseLength(body[..4])
      case None => []
      case Some(n) =>
        if n == 0 then Lines(body[4..], isText)
        else if n < 4 || n > |body| then []
        else (if isText(body[4..n]) then [body[4..n]] else []) + Lines(body[n..], isText)
  }

  lemma LinesAtEnd(body: Bytes, isText: Bytes -> bool)
    requires |body| >= 4 ==> var n := ParseLength(body[..4]); n.None? || 0 < n.value < 4 || n.value > |body|
    ensures Lines(body, isText) == []
  {
  }

  lemma LinesAtFlush(body: Bytes, isText: Bytes -> bool)
    requires |body| >= 4 && ParseLength(body[..4]) == Some(0)
    ensures Lines(body, isText) == Lines(body[4..], isText)
  {
  }

  lemma LinesAtLine(body: Bytes, n: nat, isText: Bytes -> bool)
    requires 4 <= n <= |body| && ParseLength(body[..4]) == Some(n)
    ensures Lines(body, isText) == (if isText(body[4..n]) then [body[4..n]] else []) + Lines(body[n..], isText)
  {
  }

  lemma Suffix(s: Bytes, offset: nat, n: nat)
    requires offset + n <= |s|
    ensures s[offset..][..n] == s[offset..offset + n] && s[offset..][n..] == s[offset + n..]
    ensures n >= 4 ==> s[offset..][4..n] == s[offset + 4..offset + n]
  {
  }

  method VisitLines(body: Bytes, isText: Bytes -> bool) returns (lines: seq<Bytes>)
    ensures lines == Lines(body, isText)
  {
    hide Lines, ParseLength;
    lines := [];
    var offset := 0;
    assert body[0..] == body;
    while offset + 4 <= |body|
      invariant 0 <= offset <= |body|
      invariant lines + Lines(body[offset..], isText) == Lines(body, isText)
      decreases |body| - offset
    {
      Suffix(body, offset, 4);
      var header := ParseLength(body[offset..offset + 4]);
      if header.None? {
        break;
      }
      var n := header.value;
      if n == 0 {
        LinesAtFlush(body[offset..], isText);
        offset := offset + 4;
        continue;
      }
      if n < 4 || offset + n > |body| {
        break;
      }
      Suffix(body, offset, n);
      LinesAtLine(body[offset..], n, isText);
      var line := body[offset + 4..offset + n];
      Associate(lines, [line], Lines(body[offset + n..], isText));
      if isText(line) {
        lines := lines + [line];
      }
      offset := offset + n;
    }
    LinesAtEnd(body[offset..], isText);
  }

  lemma Associate<T>(a: seq<T>, b: seq<T>, c: seq<T>)
    ensures a + (b + c) == a + b + c && a + ([] + c) == a + c
  {
  }

  datatype Item = Line(bytes: Bytes) | Flush

  function Print(items: seq<Item>): Bytes {
    if items == [] then []
    else PrintItem(items[0]) + Print(items[1..])
  }

  function Texts(items: seq<Item>, isText: Bytes -> bool): seq<Bytes> {
    if items == [] then []
    else Text(items[0], isText) + Texts(items[1..], isText)
  }

  lemma LinesOfPacket(line: Bytes, rest: Bytes, isText: Bytes -> bool)
    requires |line| <= MAX_PAYLOAD
    ensures Lines(Packet(line) + rest, isText) == (if isText(line) then [line] else []) + Lines(rest, isText)
  {
    hide Lines, ParseLength, Packet;
    PacketParts(line, rest);
    LinesAtLine(Packet(line) + rest, |line| + 4, isText);
  }

  lemma FlushHeader()
    ensures ParseLength(FLUSH) == Some(0)
  {
    LengthRoundTrip(0);
    assert Digits(0) == [];
    assert PrintLength(0) == FLUSH;
  }

  lemma LinesOfFlush(rest: Bytes, isText: Bytes -> bool)
    ensures Lines(FLUSH + rest, isText) == Lines(rest, isText)
  {
    hide Lines, ParseLength;
    FlushHeader();
    assert (FLUSH + rest)[..4] == FLUSH && (FLUSH + rest)[4..] == rest;
    LinesAtFlush(FLUSH + rest, isText);
  }

  predicate ItemFits(i: Item) {
    i.Line? ==> |i.bytes| <= MAX_PAYLOAD
  }

  function PrintItem(i: Item): Bytes {
    match i
    case Line(b) => Packet(b)
    case Flush => FLUSH
  }

  function Text(i: Item, isText: Bytes -> bool): seq<Bytes> {
    if i.Line? && isText(i.bytes) then [i.bytes] else []
  }

  lemma LinesOfItem(i: Item, rest: Bytes, isText: Bytes -> bool)
    requires ItemFits(i)
    ensures Lines(PrintItem(i) + rest, isText) == Text(i, isText) + Lines(rest, isText)
  {
    hide Lines, Packet;
    if i.Line? {
      LinesOfPacket(i.bytes, rest, isText);
    } else {
      LinesOfFlush(rest, isText);
    }
  }

  /** Printing lines and flushes and reading them again gives the lines back, whatever follows. */
  lemma {:induction false} PrintThenRead(items: seq<Item>, rest: Bytes, isText: Bytes -> bool)
    requires forall k | 0 <= k < |items| :: ItemFits(items[k])
    ensures Lines(Print(items) + rest, isText) == Texts(items, isText) + Lines(rest, isText)
  {
    hide Lines, PrintItem, Text, ItemFits;
    if items == [] {
      assert Print(items) + rest == rest;
      assert Texts(items, isText) + Lines(rest, isText) == Lines(rest, isText);
    } else {
      var more := Print(items[1..]) + rest;
      PrintThenRead(items[1..], rest, isText);
      LinesOfItem(items[0], more, isText);
      Associate(PrintItem(items[0]), Print(items[1..]), rest);
      Associate(Text(items[0], isText), Texts(items[1..], isText), Lines(rest, isText));
    }
  }

  /** A body cut short anywhere gives an initial part of the lines, never others. */
  lemma {:induction false} CutBodyGivesPrefix(body: Bytes, cut: nat, isText: Bytes -> bool)
    requires cut <= |body|
    ensures Lines(body[..cut], isText) <= Lines(body, isText)
    decreases cut
  {
    hide Lines, ParseLength;
    var short := body[..cut];
    var header := if cut >= 4 then ParseLength(body[..4]) else None;
    assert cut >= 4 ==> short[..4] == body[..4];
    if header.None? || 0 < header.value < 4 || header.value > cut {
      LinesAtEnd(short, isText);
    } else {
      var n := if header.value == 0 then 4 else header.value;
      CutTail(body, cut, n);
      CutBodyGivesPrefix(body[n..], cut - n, isText);
      if header.value == 0 {
        LinesAtFlush(short, isText);
        LinesAtFlush(body, isText);
      } else {
        LinesAtLine(short, n, isText);
        LinesAtLine(body, n, isText);
      }
    }
  }

  lemma CutTail(body: Bytes, cut: nat, n: nat)
    requires 4 <= n <= cut <= |body|
    ensures body[..cut][4..n] == body[4..n] && body[..cut][n..] == body[n..][..cut - n]
  {
  }

  // -------------------------------------------------------- writing an advertisement

  const SPACE: Byte := 32
  const NUL: Byte := 0
  const LF: Byte := 10

  function Ascii(s: string): Bytes {
    seq(|s|, i requires 0 <= i < |s| => s[i] as int % 256)
  }

  function Heads(): Bytes {
    Ascii("refs/heads/")
  }

  function Head(): Bytes {
    Ascii("HEAD")
  }

  function SymrefText(): Bytes {
    Ascii(" symref=HEAD:refs/heads/")
  }

  function TransferCaps(): Bytes {
    Ascii("multi_ack thin-pack side-band side-band-64k ofs-delta ")
  }

  function HistoryCaps(): Bytes {
    Ascii("shallow deepen-since deepen-not deepen-relative no-progress ")
  }

  function NegotiationCaps(): Bytes {
    Ascii("include-tag multi_ack_detailed no-done ")
  }

  function WantCaps(): Bytes {
    Ascii("filter allow-tip-sha1-in-want allow-reachable-sha1-in-want")
  }

  function AgentCaps(): Bytes {
    Ascii(" object-format=sha1 agent=git-cache/1.0")
  }

  /** The upstream's branches with their commits, and the branch HEAD points at, if that is known. */
  datatype Upstream = Upstream(branches: map<Bytes, Bytes>, default_: Option<Bytes>) {
    function Resolved(): Option<Bytes> {
      if default_.Some? && default_.value in branches then default_ else None
    }
  }

  function Capabilities(symref: Option<Bytes>): Bytes {
    TransferCaps() + HistoryCaps() + NegotiationCaps() + WantCaps() + (if symref.Some? then SymrefText() + symref.value else []) + AgentCaps()
  }

  /** One advertised ref; the first line of an advertisement also carries the capabilities. */
  datatype Advertised = Advertised(sha: Bytes, name: Bytes, caps: Option<Bytes>)

  function RefLine(a: Advertised): Bytes {
    a.sha + [SPACE] + a.name + (if a.caps.Some? then [NUL] + a.caps.value else []) + [LF]
  }

  /** Lexicographic order on bytes. */
  predicate Below(a: Bytes, b: Bytes) {
    b != [] && (a == [] || a[0] < b[0] || (a[0] == b[0] && Below(a[1..], b[1..])))
  }

  lemma {:induction false} BelowTransitive(a: Bytes, b: Bytes, c: Bytes)
    requires Below(a, b) && Below(b, c)
    ensures Below(a, c)
  {
    if a != [] && a[0] == b[0] == c[0] {
      BelowTransitive(a[1..], b[1..], c[1..]);
    }
  }

  lemma {:induction false} BelowTotal(a: Bytes, b: Bytes)
    ensures a == b || Below(a, b) || Below(b, a)
  {
    if a != [] && b != [] && a[0] == b[0] {
      BelowTotal(a[1..], b[1..]);
      assert a == [a[0]] + a[1..] && b == [b[0]] + b[1..];
    }
  }

  lemma {:induction false} BelowIrreflexive(a: Bytes)
    ensures !Below(a, a)
  {
    if a != [] {
      BelowIrreflexive(a[1..]);
    }
  }

  ghost predicate Ascending(names: seq<Bytes>) {
    forall i, j | 0 <= i < j < |names| :: Below(names[i], names[j])
  }

  /** The smallest of a set of names. */
  method Smallest(names: set<Bytes>) returns (least: Bytes)
    requires names != {}
    ensures least in names && forall n | n in names && n != least :: Below(least, n)
  {
    least :| least in names;
    var rest := names - {least};
    while rest != {}
      invariant rest <= names && least in names
      invariant forall n | n in names && n !in rest && n != least :: Below(least, n)
      decreases |rest|
    {
      var n :| n in rest;
      ghost var before := least;
      BelowTotal(n, least);
      if Below(n, least) {
        forall m | m in names && m !in rest && m != least
          ensures Below(n, m)
        {
          BelowTransitive(n, least, m);
        }
        least := n;
      }
      rest := rest - {n};
    }
  }

  /** The names of a set in ascending order, each once. */
  method Sorted(names: set<Bytes>) returns (order: seq<Bytes>)
    ensures Ascending(order) && forall n :: n in order <==> n in names
  {
    order := [];
    var rest := names;
    while rest != {}
      invariant rest <= names && forall n :: n in order <==> n in names && n !in rest
      invariant Ascending(order) && forall n, m | n in order && m in rest :: Below(n, m)
      decreases |rest|
    {
      var least := Smallest(rest);
      order := order + [least];
      rest := rest - {least};
    }
  }

  /** Everything an advertisement lists, in order. */
  function Listing(u: Upstream, order: seq<Bytes>): seq<Advertised>
    requires forall n | n in order :: n in u.branches
  {
    match u.Resolved()
    case Some(b) => [Advertised(u.branches[b], Head(), Some(Capabilities(Some(b))))] + Plain(u, order)
    case None =>
      if order == [] then []
      else [Advertised(u.branches[order[0]], Heads() + order[0], Some(Capabilities(None)))] + Plain(u, order[1..])
  }

  function Plain(u: Upstream, order: seq<Bytes>): seq<Advertised>
    requires forall n | n in order :: n in u.branches
  {
    seq(|order|, i requires 0 <= i < |order| => Advertised(u.branches[order[i]], Heads() + order[i], None))
  }

  function PrintListing(refs: seq<Advertised>): Bytes {
    if refs == [] then [] else Packet(RefLine(refs[0])) + PrintListing(refs[1..])
  }

  /** The advertisement of an upstream's branches in ascending order. */
  ghost predicate Advertises(u: Upstream, order: seq<Bytes>, out: Bytes) {
    && Ascending(order) && (forall n :: n in order <==> n in u.branches)
    && out == PrintListing(Listing(u, order)) + FLUSH
  }

  method Synthesize(u: Upstream) returns (out: Bytes)
    ensures exists order :: Advertises(u, order, out)
  {
    hide Ascending, RefLine, Packet, Capabilities, Heads, Head;
    var refs := Sorted(u.branches.Keys);
    var start, first := FirstLine(u, refs);
    ghost var all := Listing(u, refs);
    out := PrintFirst(first);
    assert all[..|first|] == first;
    for i := start to |refs|
      invariant out == PrintListing(all[..|first| + i - start])
    {
      PrintOneMore(all, |first| + i - start);
      out := out + Packet(RefLine(Advertised(u.branches[refs[i]], Heads() + refs[i], None)));
    }
    assert all[..|all|] == all;
    out := out + FLUSH;
    assert Advertises(u, refs, out);
  }

  /** The line that carries the capabilities, if there is anything to advertise, and the first ref after it. */
  method FirstLine(u: Upstream, refs: seq<Bytes>) returns (start: nat, first: seq<Advertised>)
    requires forall n :: n in refs <==> n in u.branches
    ensures start <= |refs| && |first| <= 1
    ensures Listing(u, refs) == first + Plain(u, refs[start..])
  {
    hide Capabilities, Heads, Head;
    if u.Resolved().Some? {
      var b := u.Resolved().value;
      assert refs[0..] == refs;
      return 0, [Advertised(u.branches[b], Head(), Some(Capabilities(Some(b))))];
    }
    if refs != [] {
      return 1, [Advertised(u.branches[refs[0]], Heads() + refs[0], Some(Capabilities(None)))];
    }
    return 0, [];
  }

  method PrintFirst(first: seq<Advertised>) returns (out: Bytes)
    requires |first| <= 1
    ensures out == PrintListing(first)
  {
    if first == [] {
      return [];
    }
    assert first[1..] == [];
    return Packet(RefLine(first[0]));
  }

  lemma {:induction false} PrintOneMore(refs: seq<Advertised>, i: nat)
    requires i < |refs|
    ensures PrintListing(refs[..i + 1]) == PrintListing(refs[..i]) + Packet(RefLine(refs[i]))
  {
    hide Packet, RefLine;
    if i > 0 {
      PrintOneMore(refs[1..], i - 1);
      assert refs[..i + 1][1..] == refs[1..][..i] && refs[..i][1..] == refs[1..][..i - 1];
    } else {
      assert refs[..1][1..] == [] && refs[..0] == [];
    }
  }

  // ---------------------------------------------------------------- reading it back

  /** Where a byte first occurs, or the length of the text. */
  function IndexOf(s: Bytes, b: Byte): (i: nat)
    ensures i <= |s| && b !in s[..i] && (i < |s| ==> s[i] == b)
  {
    if s == [] || s[0] == b then 0
    else
      var i := IndexOf(s[1..], b);
      assert s[..i + 1] == [s[0]] + s[1..][..i];
      i + 1
  }

  lemma IndexOfFirst(a: Bytes, b: Byte, rest: Bytes)
    requires b !in a
    ensures IndexOf(a + [b] + rest, b) == |a|
    ensures IndexOf(a, b) == |a|
  {
    var s := a + [b] + rest;
    FirstIsLeast(s, b, |a|);
    assert s[..|a|] == a;
    var i := IndexOf(s, b);
    assert forall k | 0 <= k < |a| :: s[k] == a[k] && a[k] in a;
  }

  lemma {:induction false} FirstIsLeast(s: Bytes, b: Byte, i: nat)
    requires i < |s| && s[i] == b
    ensures IndexOf(s, b) <= i
  {
    if s[0] != b {
      FirstIsLeast(s[1..], b, i - 1);
    }
  }

  /** What a client makes of a line: a commit, a name, and capabilities after a NUL byte. */
  function ReadRef(line: Bytes): Option<Advertised> {
    var body := if line != [] && line[|line| - 1] == LF then line[..|line| - 1] else line;
    var nul := IndexOf(body, NUL);
    var text := body[..nul];
    var space := IndexOf(text, SPACE);
    if space == |text| then None
    else Some(Advertised(text[..space], text[space + 1..], if nul < |body| then Some(body[nul + 1..]) else None))
  }

  predicate Readable(a: Advertised) {
    SPACE !in a.sha && NUL !in a.sha && NUL !in a.name
  }

  lemma RefRoundTrip(a: Advertised)
    requires Readable(a)
    ensures ReadRef(RefLine(a)) == Some(a)
  {
    var line := RefLine(a);
    var text := a.sha + [SPACE] + a.name;
    var body := text + if a.caps.Some? then [NUL] + a.caps.value else [];
    assert line[..|line| - 1] == body;
    assert NUL !in text;
    if a.caps.Some? {
      assert body == text + [NUL] + a.caps.value;
      IndexOfFirst(text, NUL, a.caps.value);
      assert body[|text| + 1..] == a.caps.value;
    } else {
      assert body == text;
      IndexOfFirst(text, NUL, []);
    }
    assert body[..|text|] == text;
    IndexOfFirst(a.sha, SPACE, a.name);
    assert text[..|a.sha|] == a.sha && text[|a.sha| + 1..] == a.name;
  }

  /** All lines read as refs, or nothing. */
  function ReadRefs(lines: seq<Bytes>): Option<seq<Advertised>> {
    if lines == [] then Some([])
    else
      match ReadRef(lines[0])
      case None => None
      case Some(a) =>
        match ReadRefs(lines[1..])
        case None => None
        case Some(rest) => Some([a] + rest)
  }

  lemma NoLines(isText: Bytes -> bool)
    ensures Lines([], isText) == []
  {
  }

  lemma {:induction false} ListingReadsBack(refs: seq<Advertised>, isText: Bytes -> bool)
    requires forall a | a in refs :: Readable(a) && |RefLine(a)| <= MAX_PAYLOAD && isText(RefLine(a))
    ensures ReadRefs(Lines(PrintListing(refs) + FLUSH, isText)) == Some(refs)
  {
    hide Lines, Packet, RefLine, ReadRef, Readable;
    if refs == [] {
      assert PrintListing(refs) + FLUSH == FLUSH + [];
      LinesOfFlush([], isText);
      NoLines(isText);
    } else {
      var rest := PrintListing(refs[1..]) + FLUSH;
      ListingReadsBack(refs[1..], isText);
      assert PrintListing(refs) + FLUSH == Packet(RefLine(refs[0])) + rest;
      LinesOfPacket(RefLine(refs[0]), rest, isText);
      RefRoundTrip(refs[0]);
      assert ([RefLine(refs[0])] + Lines(rest, isText))[1..] == Lines(rest, isText);
      assert [refs[0]] + refs[1..] == refs;
    }
  }

  /** Names and commits without separators, and lines that fit a packet. */
  predicate Printable(u: Upstream, order: seq<Bytes>, isText: Bytes -> bool)
    requires forall n | n in order :: n in u.branches
  {
    && (forall n | n in u.branches :: NUL !in n && SPACE !in u.branches[n] && NUL !in u.branches[n])
    && (forall a | a in Listing(u, order) :: |RefLine(a)| <= MAX_PAYLOAD && isText(RefLine(a)))
  }

  /** The capabilities tell which branch HEAD points at, if any. */
  lemma CapabilitiesTellDefault(a: Option<Bytes>, b: Option<Bytes>)
    requires Capabilities(a) == Capabilities(b)
    ensures a == b
  {
    var x, y := Capabilities(a), Capabilities(b);
    var n := |(TransferCaps() + HistoryCaps() + NegotiationCaps() + WantCaps())| + |SymrefText()|;
    if a.Some? && b.Some? {
      assert a.value == x[n..|x| - |AgentCaps()|] && b.value == y[n..|y| - |AgentCaps()|];
    }
  }

  /** What a client learns from an advertisement. */
  function Learned(out: Bytes, isText: Bytes -> bool): Option<seq<Advertised>> {
    ReadRefs(Lines(out, isText))
  }

  /**
    Every upstream branch with its commit exactly once, in order, and nothing
    else, except a HEAD line first, exactly when the default branch is among
    them; and capabilities on the first line only, naming that branch.
  */
  ghost predicate Faithful(u: Upstream, order: seq<Bytes>, got: seq<Advertised>)
    requires forall n | n in order :: n in u.branches
  {
    var skip := if u.Resolved().Some? then 1 else 0;
    && |got| == skip + |order|
    && (forall k | 0 <= k < |order| :: got[skip + k].name == Heads() + order[k] && got[skip + k].sha == u.branches[order[k]])
    && (skip == 1 ==> got[0].name == Head() && got[0].sha == u.branches[u.Resolved().value])
    && (forall i | 0 <= i < |got| :: got[i].caps == if i == 0 then Some(Capabilities(u.Resolved())) else None)
  }

  lemma ListingIsFaithful(u: Upstream, order: seq<Bytes>)
    requires forall n | n in order :: n in u.branches
    ensures Faithful(u, order, Listing(u, order))
  {
    hide Heads, Head, Capabilities;
    var got := Listing(u, order);
    if u.Resolved().Some? {
      FirstThenRest(got[0], Plain(u, order), got);
    } else if order != [] {
      FirstThenRest(got[0], Plain(u, order[1..]), got);
      assert forall k | 0 < k < |order| :: order[k] == order[1..][k - 1];
    }
  }

  lemma FirstThenRest<T>(first: T, rest: seq<T>, all: seq<T>)
    requires all == [first] + rest
    ensures all[0] == first && forall i | 0 < i < |all| :: all[i] == rest[i - 1]
  {
  }

  lemma ListingIsReadable(u: Upstream, order: seq<Bytes>)
    requires forall n | n in order :: n in u.branches
    requires forall n | n in u.branches :: NUL !in n && SPACE !in u.branches[n] && NUL !in u.branches[n]
    ensures forall a | a in Listing(u, order) :: Readable(a)
  {
    assert NUL !in Heads() && NUL !in Head();
    hide Heads, Head, Capabilities;
  }

  /** Reading an advertisement back yields exactly the upstream's branches, each once. */
  lemma AdvertisementReadsBack(u: Upstream, order: seq<Bytes>, out: Bytes, isText: Bytes -> bool)
    requires Advertises(u, order, out) && Printable(u, order, isText)
    ensures Learned(out, isText).Some? && Faithful(u, order, Learned(out, isText).value)
    ensures forall i, j | 0 <= i < j < |order| :: order[i] != order[j]
  {
    ListingIsReadable(u, order);
    ListingIsFaithful(u, order);
    forall i, j | 0 <= i < j < |order|
      ensures order[i] != order[j]
    {
      BelowIrreflexive(order[i]);
    }
    hide RefLine, Readable, Listing, PrintListing, Lines, Faithful, Ascending;
    ListingReadsBack(Listing(u, order), isText);
  }
}

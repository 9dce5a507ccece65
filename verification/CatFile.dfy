/**
  Reading `git cat-file --batch`: the parser of its output, what Git prints for
  a list of commits, and the chunked lookup of commit parents built on both.
*/
module CatFile {
  import opened Wrappers
  import opened PktLine

  const NEWLINE: Byte := 10
  const SPACE: Byte := 32

  /** Batches sent to one process. */
  const CHUNK: nat := 512

  const MISSING: Bytes := [109, 105, 115, 115, 105, 110, 103]
  const COMMIT: Bytes := [99, 111, 109, 109, 105, 116]
  const PARENT: Bytes := [112, 97, 114, 101, 110, 116, 32]

  datatype Error =
    | TruncatedHeader | ForeignHeader | EmptyHeader | MalformedHeader
    | NotACommit | BadSize | TruncatedBody | BadObjectId

  // -------------------------------------------------------------- small pieces

  /** The index of the first newline, or the length when there is none. */
  function LineEnd(s: Bytes): (r: nat)
    ensures r <= |s|
    ensures r < |s| ==> s[r] == NEWLINE
    ensures forall i | 0 <= i < r :: s[i] != NEWLINE
  {
    if |s| == 0 || s[0] == NEWLINE then 0 else 1 + LineEnd(s[1..])
  }

  lemma LineEndOf(line: Bytes, rest: Bytes)
    requires NEWLINE !in line
    ensures LineEnd(line + [NEWLINE] + rest) == |line|
  {
    var s := line + [NEWLINE] + rest;
    assert s[|line|] == NEWLINE;
    assert forall i | 0 <= i < |line| :: s[i] == line[i] && s[i] != NEWLINE;
  }

  predicate IsSpace(b: Byte) {
    b == SPACE || 9 <= b <= 13
  }

  // ------------------------------------------------------------------- UTF-8 text

  predicate IsTail(b: Byte) {
    0x80 <= b <= 0xbf
  }

  /** The length of the character at the front, 0 when there is no valid one. */
  function CharLength(s: Bytes): (r: nat)
    ensures r <= |s| && r <= 4
  {
    if |s| == 0 then 0
    else if s[0] < 0x80 then 1
    else if |s| >= 2 && 0xc2 <= s[0] <= 0xdf && IsTail(s[1]) then 2
    else if |s| >= 3 && 0xe0 <= s[0] <= 0xef && IsTail(s[1]) && IsTail(s[2]) then
      if (s[0] == 0xe0 && s[1] < 0xa0) || (s[0] == 0xed && s[1] > 0x9f) then 0 else 3
    else if |s| >= 4 && 0xf0 <= s[0] <= 0xf4 && IsTail(s[1]) && IsTail(s[2]) && IsTail(s[3]) then
      if (s[0] == 0xf0 && s[1] < 0x90) || (s[0] == 0xf4 && s[1] > 0x8f) then 0 else 4
    else 0
  }

  /** The Unicode scalar values. */
  predicate IsScalar(c: nat) {
    c <= 0x10ffff && !(0xd800 <= c <= 0xdfff)
  }

  /** The encoding of a scalar value, by section 3 of RFC 3629. */
  function Utf8(c: nat): (r: Bytes)
    requires IsScalar(c)
    ensures 0 < |r| <= 4
  {
    if c < 0x80 then [c]
    else if c < 0x800 then [0xc0 + c / 64, 0x80 + c % 64]
    else if c < 0x10000 then [0xe0 + c / 64 / 64, 0x80 + c / 64 % 64, 0x80 + c % 64]
    else [0xf0 + c / 64 / 64 / 64, 0x80 + c / 64 / 64 % 64, 0x80 + c / 64 % 64, 0x80 + c % 64]
  }

  /** Whatever follows, an encoded scalar value is one character. */
  lemma ScalarIsChar(c: nat, rest: Bytes)
    requires IsScalar(c)
    ensures CharLength(Utf8(c) + rest) == |Utf8(c)|
  {
    var s := Utf8(c) + rest;
    assert forall i | 0 <= i < |Utf8(c)| :: s[i] == Utf8(c)[i];
  }

  lemma SixBits(high: nat, low: nat)
    requires low < 64
    ensures (64 * high + low) / 64 == high && (64 * high + low) % 64 == low
  {
  }

  /** And nothing else is one. */
  lemma CharIsScalar(s: Bytes) returns (c: nat)
    requires CharLength(s) > 0
    ensures IsScalar(c) && s[..CharLength(s)] == Utf8(c)
  {
    match CharLength(s)
    case 1 => c := s[0];
    case 2 => c := TwoBytes(s);
    case 3 => c := ThreeBytes(s);
    case 4 => c := FourBytes(s);
  }

  lemma TwoBytes(s: Bytes) returns (c: nat)
    requires CharLength(s) == 2
    ensures IsScalar(c) && s[..2] == Utf8(c)
  {
    var b: nat := s[1];
    var high: nat := s[0] - 0xc0;
    SixBits(high, b - 0x80);
    c := 64 * high + (b - 0x80);
  }

  lemma ThreeBytes(s: Bytes) returns (c: nat)
    requires CharLength(s) == 3
    ensures IsScalar(c) && s[..3] == Utf8(c)
  {
    var b: nat, d: nat := s[1], s[2];
    var top: nat := s[0] - 0xe0;
    SixBits(top, b - 0x80);
    var high := 64 * top + (b - 0x80);
    SixBits(high, d - 0x80);
    c := 64 * high + (d - 0x80);
  }

  lemma FourBytes(s: Bytes) returns (c: nat)
    requires CharLength(s) == 4
    ensures IsScalar(c) && s[..4] == Utf8(c)
  {
    var b: nat, d: nat, e: nat := s[1], s[2], s[3];
    var top: nat := s[0] - 0xf0;
    SixBits(top, b - 0x80);
    var high := 64 * top + (b - 0x80);
    SixBits(high, d - 0x80);
    var most := 64 * high + (d - 0x80);
    SixBits(most, e - 0x80);
    c := 64 * most + (e - 0x80);
  }

  predicate IsText(s: Bytes)
    decreases |s|
  {
    |s| == 0 || (CharLength(s) > 0 && IsText(s[CharLength(s)..]))
  }

  lemma {:induction false} AsciiIsText(s: Bytes)
    requires forall b | b in s :: b < 128
    ensures IsText(s)
    decreases |s|
  {
    if |s| > 0 {
      assert s[0] in s && forall b | b in s[1..] :: b in s;
      AsciiIsText(s[1..]);
    }
  }

  /** The length of the white-space character at the front, 0 when there is none. */
  function SpaceLength(s: Bytes): (r: nat)
    ensures r <= |s| && r <= 3
  {
    if |s| == 0 then 0
    else if IsSpace(s[0]) then 1
    else if [0xc2, 0x85] <= s || [0xc2, 0xa0] <= s then 2
    else if [0xe1, 0x9a, 0x80] <= s || [0xe2, 0x81, 0x9f] <= s || [0xe3, 0x80, 0x80] <= s then 3
    else if |s| >= 3 && s[0] == 0xe2 && s[1] == 0x80 && (0x80 <= s[2] <= 0x8a || s[2] in {0xa8, 0xa9, 0xaf}) then 3
    else 0
  }

  /** The characters with the property White_Space. */
  predicate IsWhiteSpace(c: nat) {
    || 9 <= c <= 13 || c == 0x20 || c == 0x85 || c == 0xa0 || c == 0x1680 || 0x2000 <= c <= 0x200a
    || c == 0x2028 || c == 0x2029 || c == 0x202f || c == 0x205f || c == 0x3000
  }

  /** White space is found exactly where such a character stands. */
  lemma SpaceIsWhiteSpace(c: nat, rest: Bytes)
    requires IsScalar(c)
    ensures SpaceLength(Utf8(c) + rest) == if IsWhiteSpace(c) then |Utf8(c)| else 0
  {
    var s := Utf8(c) + rest;
    assert forall i | 0 <= i < |Utf8(c)| :: s[i] == Utf8(c)[i];
    assert [0xc2, 0x85] <= s <==> |s| >= 2 && s[0] == 0xc2 && s[1] == 0x85;
    assert [0xc2, 0xa0] <= s <==> |s| >= 2 && s[0] == 0xc2 && s[1] == 0xa0;
    assert [0xe1, 0x9a, 0x80] <= s <==> |s| >= 3 && s[0] == 0xe1 && s[1] == 0x9a && s[2] == 0x80;
    assert [0xe2, 0x81, 0x9f] <= s <==> |s| >= 3 && s[0] == 0xe2 && s[1] == 0x81 && s[2] == 0x9f;
    assert [0xe3, 0x80, 0x80] <= s <==> |s| >= 3 && s[0] == 0xe3 && s[1] == 0x80 && s[2] == 0x80;
  }

  /** The length of the run at the front before the next white space. */
  function WordEnd(s: Bytes): (r: nat)
    ensures r <= |s|
    ensures r < |s| ==> SpaceLength(s[r..]) > 0
    ensures forall i | 0 <= i < r :: SpaceLength(s[i..]) == 0
  {
    if |s| == 0 || SpaceLength(s) > 0 then 0
    else
      var more := WordEnd(s[1..]);
      assert forall i | 0 < i <= |s| :: s[i..] == s[1..][i - 1..];
      1 + more
  }

  /** The words of a line; in valid text white space begins only where a character does. */
  function Words(s: Bytes): seq<Bytes>
    decreases |s|
  {
    if |s| == 0 then []
    else if SpaceLength(s) > 0 then Words(s[SpaceLength(s)..])
    else [s[..WordEnd(s)]] + Words(s[WordEnd(s)..])
  }

  predicate IsWord(w: Bytes) {
    |w| > 0 && forall b | b in w :: !IsSpace(b) && b < 128
  }

  lemma WordGoesOn(w: Bytes, rest: Bytes, i: nat)
    requires IsWord(w) && i < |w|
    ensures SpaceLength((w + rest)[i..]) == 0
  {
    assert w[i] in w;
    assert (w + rest)[i..][0] == w[i];
  }

  lemma WordsOf(w: Bytes, rest: Bytes)
    requires IsWord(w)
    ensures Words(w) == [w]
    ensures Words(w + [SPACE] + rest) == [w] + Words(rest)
  {
    var s := w + ([SPACE] + rest);
    assert s == w + [SPACE] + rest && w == w + [];
    forall i | 0 <= i < |w|
      ensures SpaceLength(w[i..]) == 0 && SpaceLength(s[i..]) == 0
    {
      WordGoesOn(w, [], i);
      WordGoesOn(w, [SPACE] + rest, i);
    }
    assert w[..|w|] == w && w[|w|..] == [] && w[0..] == w && s[0..] == s;
    assert s[..|w|] == w && s[|w|..] == [SPACE] + rest;
    assert ([SPACE] + rest)[1..] == rest;
    assert SpaceLength([SPACE] + rest) == 1;
    hide SpaceLength;
  }

  function ParseDigits(s: Bytes): Option<nat> {
    if |s| == 0 then Some(0)
    else
      match ParseDigits(s[..|s| - 1])
      case None => None
      case Some(n) => if 48 <= s[|s| - 1] <= 57 then Some(10 * n + (s[|s| - 1] - 48)) else None
  }

  /** An unsigned 64-bit decimal; a leading plus sign is let through. */
  function ParseSize(s: Bytes): (r: Option<nat>)
    ensures r.Some? ==> r.value <= 0xffff_ffff_ffff_ffff
  {
    var digits := if |s| > 0 && s[0] == 43 then s[1..] else s;
    if |digits| == 0 then None
    else
      match ParseDigits(digits)
      case None => None
      case Some(n) => if n < 0x1_0000_0000_0000_0000 then Some(n) else None
  }

  function PrintSize(n: nat): (r: Bytes)
    ensures |r| > 0
    ensures forall b | b in r :: 48 <= b <= 57
  {
    if n < 10 then [48 + n] else PrintSize(n / 10) + [48 + n % 10]
  }

  lemma {:induction false} SizeRoundTrip(n: nat)
    ensures ParseDigits(PrintSize(n)) == Some(n)
  {
    var s := PrintSize(n);
    if n < 10 {
      assert s[..0] == [];
    } else {
      SizeRoundTrip(n / 10);
      assert s[..|s| - 1] == PrintSize(n / 10);
    }
  }

  // -------------------------------------------------------------------- object ids

  predicate IsHex(b: Byte) {
    48 <= b <= 57 || 97 <= b <= 102 || 65 <= b <= 70
  }

  function Lower(b: Byte): Byte {
    if 65 <= b <= 90 then b + 32 else b
  }

  /** Hexadecimal digits are those that have a value, and lower case keeps it. */
  lemma HexDigits(b: Byte)
    ensures IsHex(b) <==> DigitValue(b).Some?
    ensures IsHex(b) ==> DigitValue(Lower(b)) == DigitValue(b) && !(65 <= Lower(b) <= 90)
  {
  }

  function LowerAll(s: Bytes): (r: Bytes)
    ensures |r| == |s| && forall i | 0 <= i < |s| :: r[i] == Lower(s[i])
  {
    seq(|s|, i requires 0 <= i < |s| => Lower(s[i]))
  }

  /** A full object id: 40 or 64 hexadecimal digits, kept in lower case. */
  function ParseSha(s: Bytes): (r: Option<Bytes>)
    ensures r.Some? ==> IsSha(r.value) && |r.value| == |s|
  {
    if (|s| == 40 || |s| == 64) && (forall b | b in s :: IsHex(b)) then
      LowerIsSha(s);
      Some(LowerAll(s))
    else None
  }

  lemma LowerIsSha(s: Bytes)
    requires (|s| == 40 || |s| == 64) && forall b | b in s :: IsHex(b)
    ensures IsSha(LowerAll(s))
  {
    forall i | 0 <= i < |s|
      ensures IsHex(LowerAll(s)[i]) && Lower(LowerAll(s)[i]) == LowerAll(s)[i]
    {
      assert s[i] in s;
    }
  }

  predicate IsSha(s: Bytes) {
    (|s| == 40 || |s| == 64) && forall b | b in s :: IsHex(b) && Lower(b) == b
  }

  lemma ShaRoundTrip(s: Bytes)
    requires IsSha(s)
    ensures ParseSha(s) == Some(s) && IsWord(s) && NEWLINE !in s
    ensures forall b | b in s :: b < 128
  {
    assert forall i | 0 <= i < |s| :: s[i] in s && LowerAll(s)[i] == s[i];
    assert LowerAll(s) == s;
  }

  // ------------------------------------------------------------------- the parser

  /** The ids on the parent lines before the first empty line. */
  function ParseParents(body: Bytes): Result<seq<Bytes>, Error>
    decreases |body|
  {
    var e := LineEnd(body);
    var line := body[..e];
    if line == [] then Ok([])
    else
      match OnLine(line)
      case Err(error) => Err(error)
      case Ok(own) => if e == |body| then Ok(own) else Prepended(own, ParseParents(body[e + 1..]))
  }

  /** The id on a parent line, nothing on any other. */
  function OnLine(line: Bytes): Result<seq<Bytes>, Error> {
    if PARENT <= line then
      match ParseSha(line[|PARENT|..])
      case None => Err(BadObjectId)
      case Some(id) => Ok([id])
    else Ok([])
  }

  function Prepended(own: seq<Bytes>, r: Result<seq<Bytes>, Error>): Result<seq<Bytes>, Error> {
    if r.Ok? then Ok(own + r.value) else r
  }

  lemma PrependTwice(a: seq<Bytes>, b: seq<Bytes>, r: Result<seq<Bytes>, Error>)
    ensures Prepended(a, Prepended(b, r)) == Prepended(a + b, r)
    ensures Prepended([], r) == r
  {
    if r.Ok? {
      assert a + (b + r.value) == (a + b) + r.value;
      assert [] + r.value == r.value;
    }
  }

  type ParentMap = map<Bytes, seq<Bytes>>

  /** One entry of the output: nothing to record, or a commit with its parents, and where the next entry starts. */
  datatype Entry = Skip(next: nat) | Commit(id: Bytes, parents: seq<Bytes>, next: nat)

  function ParseEntry(s: Bytes): (r: Result<Entry, Error>)
    requires |s| > 0
    ensures r.Ok? ==> 0 < r.value.next <= |s|
  {
    var e := LineEnd(s);
    if e == |s| then Err(TruncatedHeader)
    else if !IsText(s[..e]) then Err(ForeignHeader)
    else
      var words := Words(s[..e]);
      if |words| == 0 then Err(EmptyHeader)
      else if |words| == 1 then Err(MalformedHeader)
      else if words[1] == MISSING then Ok(Skip(e + 1))
      else if words[1] != COMMIT then Err(NotACommit)
      else if |words| == 2 then Err(MalformedHeader)
      else
        match ParseSize(words[2])
        case None => Err(BadSize)
        case Some(size) =>
          if |s| - (e + 1) < size then Err(TruncatedBody)
          else
            match ParseParents(s[e + 1..e + 1 + size])
            case Err(error) => Err(error)
            case Ok(parents) =>
              match ParseSha(words[0])
              case None => Err(BadObjectId)
              case Some(id) =>
                var next := e + 1 + size;
                Ok(Commit(id, parents, if next < |s| && s[next] == NEWLINE then next + 1 else next))
  }

  function Recorded(e: Entry): ParentMap {
    if e.Skip? then map[] else map[e.id := e.parents]
  }

  /** The whole output; a later entry for the same id replaces an earlier one. */
  function ParseBatch(s: Bytes): Result<ParentMap, Error>
    decreases |s|
  {
    if |s| == 0 then Ok(map[])
    else
      match ParseEntry(s)
      case Err(error) => Err(error)
      case Ok(entry) =>
        match ParseBatch(s[entry.next..])
        case Err(error) => Err(error)
        case Ok(more) => Ok(Recorded(entry) + more)
  }

  // ------------------------------------------------------------ what Git prints

  datatype CommitObject = CommitObject(tree: Bytes, parents: seq<Bytes>, headers: seq<Bytes>, message: Bytes)

  type Objects = map<Bytes, CommitObject>

  predicate IsHeaderLine(line: Bytes) {
    |line| > 0 && NEWLINE !in line && !(PARENT <= line)
  }

  /** A commit as Git writes it: other header lines are neither empty nor parent lines, and the size fits. */
  predicate Genuine(c: CommitObject) {
    && IsHeaderLine(c.tree)
    && (forall p | p in c.parents :: IsSha(p))
    && (forall l | l in c.headers :: IsHeaderLine(l))
    && |Body(c)| < 0x1_0000_0000_0000_0000
  }

  predicate AllGenuine(objects: Objects) {
    forall id | id in objects :: IsSha(id) && Genuine(objects[id])
  }

  function Lines(lines: seq<Bytes>): Bytes {
    if |lines| == 0 then [] else lines[0] + [NEWLINE] + Lines(lines[1..])
  }

  function ParentLines(parents: seq<Bytes>): Bytes {
    if |parents| == 0 then [] else PARENT + parents[0] + [NEWLINE] + ParentLines(parents[1..])
  }

  function Body(c: CommitObject): Bytes {
    c.tree + [NEWLINE] + (ParentLines(c.parents) + (Lines(c.headers) + ([NEWLINE] + c.message)))
  }

  function Header(id: Bytes, size: nat): Bytes {
    id + [SPACE] + (COMMIT + [SPACE] + PrintSize(size))
  }

  function PrintEntry(objects: Objects, id: Bytes): Bytes {
    if id in objects then
      var body := Body(objects[id]);
      Header(id, |body|) + [NEWLINE] + (body + [NEWLINE])
    else id + [SPACE] + MISSING + [NEWLINE]
  }

  function PrintBatch(objects: Objects, ids: seq<Bytes>): Bytes {
    if |ids| == 0 then [] else PrintEntry(objects, ids[0]) + PrintBatch(objects, ids[1..])
  }

  /** The parents of those ids that are present. */
  function Lookup(objects: Objects, ids: seq<Bytes>): ParentMap {
    map id | id in ids && id in objects :: objects[id].parents
  }

  // ----------------------------------------------------- printing, then parsing

  lemma {:induction false} HeaderLinesParse(lines: seq<Bytes>, message: Bytes)
    requires forall l | l in lines :: IsHeaderLine(l)
    ensures ParseParents(Lines(lines) + ([NEWLINE] + message)) == Ok([])
  {
    var body := Lines(lines) + ([NEWLINE] + message);
    if |lines| == 0 {
      assert body[0] == NEWLINE;
    } else {
      var rest := Lines(lines[1..]) + ([NEWLINE] + message);
      assert body == lines[0] + [NEWLINE] + rest;
      assert IsHeaderLine(lines[0]);
      LineEndOf(lines[0], rest);
      assert body[..|lines[0]|] == lines[0] && body[|lines[0]| + 1..] == rest;
      HeaderLinesParse(lines[1..], message);
      PrependTwice([], [], Ok([]));
    }
  }

  lemma {:induction false} ParentLinesParse(parents: seq<Bytes>, rest: Bytes)
    requires forall p | p in parents :: IsSha(p)
    requires ParseParents(rest) == Ok([])
    ensures ParseParents(ParentLines(parents) + rest) == Ok(parents)
  {
    var body := ParentLines(parents) + rest;
    if |parents| == 0 {
      assert body == rest;
    } else {
      var line := PARENT + parents[0];
      var tail := ParentLines(parents[1..]) + rest;
      ShaRoundTrip(parents[0]);
      assert body == line + [NEWLINE] + tail;
      LineEndOf(line, tail);
      assert body[..|line|] == line && body[|line| + 1..] == tail && line[|PARENT|..] == parents[0];
      ParentLinesParse(parents[1..], rest);
      assert [parents[0]] + parents[1..] == parents;
    }
  }

  lemma BodyParses(c: CommitObject)
    requires Genuine(c)
    ensures ParseParents(Body(c)) == Ok(c.parents)
  {
    hide IsSha;
    var rest := Lines(c.headers) + ([NEWLINE] + c.message);
    HeaderLinesParse(c.headers, c.message);
    ParentLinesParse(c.parents, rest);
    var tail := ParentLines(c.parents) + rest;
    LineEndOf(c.tree, tail);
    var body := Body(c);
    assert body[..|c.tree|] == c.tree && body[|c.tree| + 1..] == tail;
    assert [] + c.parents == c.parents;
  }

  lemma WordsAreClean(size: nat)
    ensures IsWord(COMMIT) && IsWord(MISSING) && IsWord(PrintSize(size))
    ensures NEWLINE !in PrintSize(size) && forall b | b in PrintSize(size) :: b < 128
  {
  }

  lemma HeaderReads(id: Bytes, size: nat)
    requires IsSha(id)
    ensures Words(Header(id, size)) == [id, COMMIT, PrintSize(size)]
    ensures NEWLINE !in Header(id, size) && forall b | b in Header(id, size) :: b < 128
  {
    hide IsSha, PrintSize, Words, IsWord;
    ShaRoundTrip(id);
    WordsAreClean(size);
    WordsOf(id, COMMIT + [SPACE] + PrintSize(size));
    WordsOf(COMMIT, PrintSize(size));
    WordsOf(PrintSize(size), []);
    assert id + [SPACE] + (COMMIT + [SPACE] + PrintSize(size)) == Header(id, size);
    assert [id] + ([COMMIT] + [PrintSize(size)]) == [id, COMMIT, PrintSize(size)];
  }

  lemma SizeReads(n: nat)
    requires n < 0x1_0000_0000_0000_0000
    ensures ParseSize(PrintSize(n)) == Some(n)
  {
    SizeRoundTrip(n);
    assert PrintSize(n)[0] in PrintSize(n);
  }

  lemma PresentEntryParses(objects: Objects, id: Bytes, rest: Bytes)
    requires AllGenuine(objects) && id in objects
    ensures |PrintEntry(objects, id)| > 0
    ensures ParseEntry(PrintEntry(objects, id) + rest) == Ok(Commit(id, objects[id].parents, |PrintEntry(objects, id)|))
  {
    hide IsSha, ParseParents, Words, ParseSize, PrintSize, Body, Header, AllGenuine, LineEnd, Genuine, ParseSha;
    GenuineMember(objects, id);
    var body := Body(objects[id]);
    var header := Header(id, |body|);
    var s := PrintEntry(objects, id) + rest;
    HeaderReads(id, |body|);
    AsciiIsText(header);
    SizeReads(|body|);
    ShaRoundTrip(id);
    BodyParses(objects[id]);
    var tail := body + [NEWLINE] + rest;
    assert s == header + [NEWLINE] + tail;
    LineEndOf(header, tail);
    assert s[..|header|] == header;
    assert s[|header| + 1..|header| + 1 + |body|] == body;
    assert s[|header| + 1 + |body|] == NEWLINE;
  }

  lemma GenuineMember(objects: Objects, id: Bytes)
    requires AllGenuine(objects) && id in objects
    ensures IsSha(id) && Genuine(objects[id])
  {
  }

  lemma MissingEntryParses(objects: Objects, id: Bytes, rest: Bytes)
    requires IsSha(id) && id !in objects
    ensures |PrintEntry(objects, id)| > 0
    ensures ParseEntry(PrintEntry(objects, id) + rest) == Ok(Skip(|PrintEntry(objects, id)|))
  {
    hide IsSha, Words, IsWord, LineEnd, ParseSha, ParseSize, ParseParents, Header, Body;
    ShaRoundTrip(id);
    WordsAreClean(0);
    var header := id + [SPACE] + MISSING;
    var s := PrintEntry(objects, id) + rest;
    WordsOf(id, MISSING);
    WordsOf(MISSING, []);
    assert Words(header) == [id, MISSING];
    assert forall b | b in header :: b < 128 && b != NEWLINE;
    assert s == header + [NEWLINE] + rest;
    LineEndOf(header, rest);
    assert s[..|header|] == header && |header| < |s|;
    AsciiIsText(header);
  }

  /**
    Parsing what Git prints for any list of ids, present or missing, repeated or
    not, gives exactly the present ones with their parents in order.
  */
  lemma {:induction false} BatchRoundTrip(objects: Objects, ids: seq<Bytes>)
    requires AllGenuine(objects) && forall id | id in ids :: IsSha(id)
    ensures ParseBatch(PrintBatch(objects, ids)) == Ok(Lookup(objects, ids))
    decreases |ids|
  {
    hide AllGenuine, IsSha, PrintEntry, ParseEntry;
    if |ids| == 0 {
      assert Lookup(objects, ids) == map[];
    } else {
      var id := ids[0];
      var rest := PrintBatch(objects, ids[1..]);
      var s := PrintBatch(objects, ids);
      if id in objects {
        PresentEntryParses(objects, id, rest);
      } else {
        MissingEntryParses(objects, id, rest);
      }
      assert s[|PrintEntry(objects, id)|..] == rest;
      BatchRoundTrip(objects, ids[1..]);
      LookupSplit(objects, [id], ids[1..]);
      assert [id] + ids[1..] == ids;
    }
  }

  lemma LookupSplit(objects: Objects, a: seq<Bytes>, b: seq<Bytes>)
    ensures Lookup(objects, a + b) == Lookup(objects, a) + Lookup(objects, b)
    ensures forall id :: Lookup(objects, [id]) == if id in objects then map[id := objects[id].parents] else map[]
  {
  }

  // ------------------------------------------------------------------ the methods

  /** What reading the line at an offset does to the rest of the work. */
  lemma LineStep(body: Bytes, start: nat, parents: seq<Bytes>)
    requires start <= |body|
    ensures var end := start + LineEnd(body[start..]);
            var line := body[start..end];
            Prepended(parents, ParseParents(body[start..]))
            == if line == [] then Ok(parents)
               else match OnLine(line)
                    case Err(error) => Err(error)
                    case Ok(own) =>
                      if end == |body| then Ok(parents + own)
                      else Prepended(parents + own, ParseParents(body[end + 1..]))
  {
    var e := LineEnd(body[start..]);
    var end := start + e;
    assert body[start..][..e] == body[start..end];
    assert parents + [] == parents;
    if end < |body| {
      assert body[start..][e + 1..] == body[end + 1..];
      if OnLine(body[start..end]).Ok? {
        PrependTwice(parents, OnLine(body[start..end]).value, ParseParents(body[end + 1..]));
      }
    }
  }

  /** The loop over a commit body's header lines. */
  method ReadParents(body: Bytes) returns (r: Result<seq<Bytes>, Error>)
    ensures r == ParseParents(body)
  {
    hide ParseParents, Prepended, ParseSha;
    var parents: seq<Bytes> := [];
    var start := 0;
    assert body[0..] == body;
    PrependTwice([], [], ParseParents(body));
    while start <= |body|
      invariant 0 <= start <= |body|
      invariant ParseParents(body) == Prepended(parents, ParseParents(body[start..]))
      decreases |body| - start
    {
      LineStep(body, start, parents);
      var end := start + LineEnd(body[start..]);
      var line := body[start..end];
      if line == [] {
        break;
      }
      if PARENT <= line {
        var parent := ParseSha(line[|PARENT|..]);
        if parent.None? {
          return Err(BadObjectId);
        }
        parents := parents + [parent.value];
      } else {
        assert parents + [] == parents;
      }
      if end == |body| {
        break;
      }
      start := end + 1;
    }
    return Ok(parents);
  }

  function Combined(have: ParentMap, r: Result<ParentMap, Error>): Result<ParentMap, Error> {
    if r.Ok? then Ok(have + r.value) else r
  }

  lemma EntryStep(s: Bytes, offset: nat, have: ParentMap)
    requires offset <= |s|
    ensures Combined(have, ParseBatch(s[offset..]))
            == if offset == |s| then Ok(have)
               else match ParseEntry(s[offset..])
                    case Err(error) => Err(error)
                    case Ok(entry) => Combined(have + Recorded(entry), ParseBatch(s[offset + entry.next..]))
  {
    hide ParseEntry;
    if offset == |s| {
      assert have + map[] == have;
    } else if ParseEntry(s[offset..]).Ok? {
      var entry := ParseEntry(s[offset..]).value;
      assert s[offset..][entry.next..] == s[offset + entry.next..];
      var rest := ParseBatch(s[offset + entry.next..]);
      if rest.Ok? {
        assert have + (Recorded(entry) + rest.value) == (have + Recorded(entry)) + rest.value;
      }
    }
  }

  lemma CombinedWithNone(r: Result<ParentMap, Error>)
    ensures Combined(map[], r) == r
  {
    if r.Ok? {
      assert map[] + r.value == r.value;
    }
  }

  /** The pieces of the entry at an offset, by position in the whole output. */
  lemma EntryHeader(s: Bytes, offset: nat)
    requires offset < |s|
    ensures var e := LineEnd(s[offset..]); s[offset..][..e] == s[offset..offset + e]
  {
  }

  lemma EntryBody(s: Bytes, offset: nat, size: nat)
    requires offset < |s| && offset + LineEnd(s[offset..]) + 1 + size <= |s|
    ensures var e := LineEnd(s[offset..]);
            && s[offset..][e + 1..e + 1 + size] == s[offset + e + 1..offset + e + 1 + size]
            && (offset + e + 1 + size < |s| ==> s[offset..][e + 1 + size] == s[offset + e + 1 + size])
  {
  }

  /** Reads the whole output with a moving offset; every index stays in bounds and the loop ends. */
  method ReadBatch(s: Bytes) returns (r: Result<ParentMap, Error>)
    ensures r == ParseBatch(s)
  {
    hide ParseBatch, ParseParents, ParseSha, Words, ParseSize, LineEnd, Combined;
    var parentsByCommit: ParentMap := map[];
    var offset := 0;
    assert s[0..] == s;
    CombinedWithNone(ParseBatch(s));
    while offset < |s|
      invariant 0 <= offset <= |s|
      invariant ParseBatch(s) == Combined(parentsByCommit, ParseBatch(s[offset..]))
      decreases |s| - offset
    {
      EntryStep(s, offset, parentsByCommit);
      EntryHeader(s, offset);
      var headerEnd := offset + LineEnd(s[offset..]);
      if headerEnd == |s| {
        return Err(TruncatedHeader);
      }
      var header := s[offset..headerEnd];
      if !IsText(header) {
        return Err(ForeignHeader);
      }
      ghost var start := offset;
      offset := headerEnd + 1;
      var words := Words(header);
      if |words| == 0 {
        return Err(EmptyHeader);
      }
      if |words| == 1 {
        return Err(MalformedHeader);
      }
      if words[1] == MISSING {
        assert parentsByCommit + map[] == parentsByCommit;
        continue;
      }
      if words[1] != COMMIT {
        return Err(NotACommit);
      }
      if |words| == 2 {
        return Err(MalformedHeader);
      }
      var size := ParseSize(words[2]);
      if size.None? {
        return Err(BadSize);
      }
      if |s| - offset < size.value {
        return Err(TruncatedBody);
      }
      EntryBody(s, start, size.value);
      var body := s[offset..offset + size.value];
      offset := offset + size.value;
      if offset < |s| && s[offset] == NEWLINE {
        offset := offset + 1;
      }
      var parents := ReadParents(body);
      if parents.Err? {
        return Err(parents.error);
      }
      var id := ParseSha(words[0]);
      if id.None? {
        return Err(BadObjectId);
      }
      assert ParseEntry(s[start..]) == Ok(Commit(id.value, parents.value, offset - start));
      assert parentsByCommit + map[id.value := parents.value] == parentsByCommit[id.value := parents.value];
      parentsByCommit := parentsByCommit[id.value := parents.value];
    }
    EntryStep(s, offset, parentsByCommit);
    return Ok(parentsByCommit);
  }

  /** The lookup in batches of at most CHUNK ids, each batch printed by Git and parsed, equals the lookup at once. */
  method CommitParentMap(objects: Objects, ids: seq<Bytes>) returns (parents: ParentMap)
    requires AllGenuine(objects) && forall id | id in ids :: IsSha(id)
    ensures parents == Lookup(objects, ids)
  {
    hide AllGenuine, IsSha, Lookup, PrintBatch, ParseBatch, IsText, CharLength, Words, LineEnd, ParseSha, IsHex;
    parents := map[];
    LookupSplit(objects, [], ids);
    LookupOfNone(objects);
    var i := 0;
    while i < |ids|
      invariant 0 <= i <= |ids|
      invariant parents == Lookup(objects, ids[..i])
    {
      var end := if |ids| - i < CHUNK then |ids| else i + CHUNK;
      var chunk := ids[i..end];
      var output := PrintBatch(objects, chunk);
      BatchRoundTrip(objects, chunk);
      var parsed := ReadBatch(output);
      assert ids[..end] == ids[..i] + chunk;
      LookupSplit(objects, ids[..i], chunk);
      parents := parents + parsed.value;
      i := end;
    }
    assert ids[..|ids|] == ids;
  }

  lemma LookupOfNone(objects: Objects)
    ensures Lookup(objects, []) == map[]
  {
  }
}

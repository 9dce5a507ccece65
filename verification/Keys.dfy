/**
  Object-store keys.  Everything the cache stores lives in one flat namespace,
  so the separate tables of generations, packs, commits, refs and heads exist
  only because the keys keep them apart.  Strings stand for their bytes: every
  character is below 256.
*/
module Keys {
  import opened Wrappers

  predicate IsBytes(s: string) {
    forall i | 0 <= i < |s| :: s[i] as int < 256
  }

  predicate IsDigit(c: char) {
    '0' <= c <= '9'
  }

  predicate IsUnreserved(c: char) {
    IsDigit(c) || 'a' <= c <= 'z' || 'A' <= c <= 'Z' || c == '.' || c == '_' || c == '-'
  }

  predicate IsHex(c: char) {
    IsDigit(c) || 'a' <= c <= 'f' || 'A' <= c <= 'F'
  }

  // ------------------------------------------------------------- percent encoding

  function HexOf(n: nat): char
    requires n < 16
  {
    if n < 10 then '0' + n as char else 'A' + (n - 10) as char
  }

  function HexValue(c: char): Option<nat> {
    if IsDigit(c) then Some((c - '0') as nat)
    else if 'A' <= c <= 'F' then Some((c - 'A') as nat + 10)
    else None
  }

  function EncodeByte(c: char): string
    requires c as int < 256
  {
    if IsUnreserved(c) then [c] else ['%', HexOf(c as nat / 16), HexOf(c as nat % 16)]
  }

  function Encode(s: string): string
    requires IsBytes(s)
  {
    if s == [] then [] else EncodeByte(s[0]) + Encode(s[1..])
  }

  function Decode(s: string): Option<string> {
    if s == [] then Some([])
    else if s[0] == '%' then
      if |s| < 3 || HexValue(s[1]).None? || HexValue(s[2]).None? then None
      else
        match Decode(s[3..])
        case None => None
        case Some(rest) => Some([(16 * HexValue(s[1]).value + HexValue(s[2]).value) as char] + rest)
    else if IsUnreserved(s[0]) then
      match Decode(s[1..])
      case None => None
      case Some(rest) => Some([s[0]] + rest)
    else None
  }

  lemma HexRoundTrip(n: nat)
    requires n < 16
    ensures HexValue(HexOf(n)) == Some(n)
    ensures IsUnreserved(HexOf(n))
  {
  }

  /** Encoding can be undone, so no two names share an encoding. */
  lemma {:induction false} DecodeUndoesEncode(s: string)
    requires IsBytes(s)
    ensures Decode(Encode(s)) == Some(s)
  {
    if s != [] {
      var c := s[0];
      DecodeUndoesEncode(s[1..]);
      assert (EncodeByte(c) + Encode(s[1..]))[|EncodeByte(c)|..] == Encode(s[1..]);
      if !IsUnreserved(c) {
        HexRoundTrip(c as nat / 16);
        HexRoundTrip(c as nat % 16);
        assert 16 * (c as nat / 16) + c as nat % 16 == c as nat;
      }
      assert [c] + s[1..] == s;
    }
  }

  lemma EncodeIsInjective(s: string, t: string)
    requires IsBytes(s) && IsBytes(t) && Encode(s) == Encode(t)
    ensures s == t
  {
    DecodeUndoesEncode(s);
    DecodeUndoesEncode(t);
  }

  /** An encoded name is one path segment of harmless characters. */
  lemma {:induction false} EncodedIsPlain(s: string)
    requires IsBytes(s)
    ensures forall c | c in Encode(s) :: IsUnreserved(c) || c == '%'
    ensures |s| <= |Encode(s)|
  {
    if s != [] {
      EncodedIsPlain(s[1..]);
      if !IsUnreserved(s[0]) {
        HexRoundTrip(s[0] as nat / 16);
        HexRoundTrip(s[0] as nat % 16);
      }
    }
  }

  /** Names of harmless characters are encoded as themselves. */
  lemma {:induction false} PlainIsUnchanged(s: string)
    requires forall i | 0 <= i < |s| :: IsUnreserved(s[i])
    ensures IsBytes(s) && Encode(s) == s
  {
    if s != [] {
      PlainIsUnchanged(s[1..]);
    }
  }

  lemma EncodeFrom(s: string, i: nat)
    requires IsBytes(s) && i < |s|
    ensures Encode(s[i..]) == EncodeByte(s[i]) + Encode(s[i + 1..])
  {
    assert s[i..][1..] == s[i + 1..];
  }

  /** The encoder: one pass over the bytes, pushing one or three characters each. */
  method EncodeComponent(value: string) returns (encoded: string)
    requires IsBytes(value)
    ensures encoded == Encode(value)
  {
    hide Encode, IsUnreserved, HexOf;
    encoded := [];
    assert value[0..] == value;
    for i := 0 to |value|
      invariant encoded + Encode(value[i..]) == Encode(value)
    {
      var byte := value[i];
      EncodeFrom(value, i);
      assert encoded + (EncodeByte(byte) + Encode(value[i + 1..])) == encoded + EncodeByte(byte) + Encode(value[i + 1..]);
      if IsUnreserved(byte) {
        encoded := encoded + [byte];
      } else {
        ghost var before := encoded;
        encoded := encoded + ['%'];
        encoded := encoded + [HexOf(byte as nat / 16)];
        encoded := encoded + [HexOf(byte as nat % 16)];
        assert encoded == before + EncodeByte(byte);
      }
    }
    EncodeNothing();
    assert value[|value|..] == [];
  }

  lemma EncodeNothing()
    ensures Encode([]) == []
  {
  }

  // -------------------------------------------------------------------- segments

  function Split(s: string): (r: seq<string>)
    ensures |r| > 0
  {
    if s == [] then [[]]
    else
      var rest := Split(s[1..]);
      if s[0] == '/' then [[]] + rest else [[s[0]] + rest[0]] + rest[1..]
  }

  lemma {:induction false} SplitJoined(a: string, b: string)
    ensures Split(a + "/" + b) == Split(a) + Split(b)
  {
    hide Split;
    var s := a + "/" + b;
    if a == [] {
      assert s[1..] == b && s[0] == '/';
      SplitPrepend('/', b, s);
      SplitPlain([]);
    } else {
      SplitJoined(a[1..], b);
      assert s[1..] == a[1..] + "/" + b && s[0] == a[0];
      SplitPrepend(a[0], a[1..], a);
      SplitPrepend(a[0], s[1..], s);
    }
  }

  lemma SplitPrepend(c: char, rest: string, s: string)
    requires s != [] && s[0] == c && s[1..] == rest
    ensures c == '/' ==> Split(s) == [[]] + Split(rest)
    ensures c != '/' ==> Split(s) == [[c] + Split(rest)[0]] + Split(rest)[1..]
  {
  }

  lemma {:induction false} SplitPlain(a: string)
    requires '/' !in a
    ensures Split(a) == [a]
  {
    if a != [] {
      SplitPlain(a[1..]);
      assert [a[0]] + a[1..] == a;
    }
  }

  /** Segments separated by slashes. */
  function Joined(segments: seq<string>): string
    requires segments != []
  {
    if |segments| == 1 then segments[0] else segments[0] + "/" + Joined(segments[1..])
  }

  /** Cutting undoes joining for segments without separators, */
  lemma {:induction false} SplitOfJoined(segments: seq<string>)
    requires segments != [] && forall s | s in segments :: '/' !in s
    ensures Split(Joined(segments)) == segments
  {
    hide Split;
    SplitPlain(segments[0]);
    if |segments| > 1 {
      SplitOfJoined(segments[1..]);
      SplitJoined(segments[0], Joined(segments[1..]));
      assert segments == [segments[0]] + segments[1..];
    } else {
      assert segments == [segments[0]];
    }
  }

  /** and joining always undoes cutting. */
  lemma {:induction false} JoinedOfSplit(s: string)
    ensures Joined(Split(s)) == s
  {
    if s != [] {
      var c, rest, all := s[0], Split(s[1..]), Split(s);
      JoinedOfSplit(s[1..]);
      if c == '/' {
        assert all == [[]] + rest && all[1..] == rest;
      } else if |rest| > 1 {
        assert all[1..] == rest[1..] && all[0] == [c] + rest[0];
      }
      assert s == [c] + s[1..];
    }
  }

  lemma {:induction false} JoinedTwo(a: seq<string>, b: seq<string>)
    requires a != [] && b != []
    ensures Joined(a + b) == Joined(a) + "/" + Joined(b)
  {
    assert (a + b)[1..] == a[1..] + b;
    if |a| > 1 {
      JoinedTwo(a[1..], b);
    }
  }

  // ------------------------------------------------------------------- validation

  predicate SafeSegments(segments: seq<string>) {
    forall s | s in segments :: s != "" && s != "." && s != ".."
  }

  /** What the store accepts as a key. */
  predicate ValidKey(key: string) {
    && key != "" && key[0] != '/' && key[|key| - 1] != '/'
    && '\\' !in key && '\0' !in key
    && SafeSegments(Split(key))
  }

  predicate ValidRepo(repo: string) {
    && repo != "" && repo[0] != '/' && '\\' !in repo
    && |Split(repo)| == 3
    && SafeSegments(Split(repo))
    && forall s | s in Split(repo) :: forall c | c in s :: IsUnreserved(c)
  }

  predicate EndsWith(s: string, suffix: string) {
    |suffix| <= |s| && s[|s| - |suffix|..] == suffix
  }

  predicate DoubleSlash(s: string) {
    exists i :: 0 <= i < |s| - 1 && s[i] == '/' && s[i + 1] == '/'
  }

  predicate ValidRefName(name: string) {
    && IsBytes(name)
    && name != "" && name[0] != '/' && name[|name| - 1] != '/'
    && '\\' !in name && '\0' !in name && !DoubleSlash(name)
    && SafeSegments(Split(name))
    && forall s | s in Split(name) :: !EndsWith(s, ".lock")
  }

  predicate ValidSha(s: string) {
    |s| in {40, 64} && forall c | c in s :: IsHex(c)
  }

  predicate ValidDigest(s: string) {
    |s| == 64 && forall c | c in s :: IsHex(c)
  }

  /** The printed form of a generation id. */
  predicate ValidId(s: string) {
    |s| == 36 && forall c | c in s :: IsHex(c) || c == '-'
  }

  // ------------------------------------------------------------------------- keys

  datatype Key =
    | Generation(repo: string, id: string)
    | Pack(repo: string, sha256: string)
    | Commit(repo: string, sha: string)
    | Ref(repo: string, name: string)
    | DefaultRef(repo: string)
    | RepoHead(repo: string)
    | Observation(repo: string, name: string, id: string)
    | LfsObject(repo: string, oid: string)

  predicate WellFormed(k: Key) {
    && ValidRepo(k.repo)
    && match k
       case Generation(_, id) => ValidId(id)
       case Pack(_, sha256) => ValidDigest(sha256)
       case Commit(_, sha) => ValidSha(sha)
       case Ref(_, name) => ValidRefName(name)
       case Observation(_, name, id) => ValidRefName(name) && ValidId(id)
       case LfsObject(_, oid) => ValidDigest(oid)
       case DefaultRef(_) => true
       case RepoHead(_) => true
  }

  const HEADS: string := "refs/heads/"

  predicate IsBranch(name: string) {
    HEADS <= name
  }

  lemma BranchBytes(name: string)
    requires IsBytes(name) && IsBranch(name)
    ensures IsBytes(name[|HEADS|..])
  {
  }

  const JSON: string := ".json"

  function RepoPath(repo: string): seq<string> {
    ["repos"] + Split(repo)
  }

  /** The segments of a key after the repository. */
  function Rest(k: Key): (r: seq<string>)
    requires WellFormed(k)
    ensures r != []
  {
    match k
    case Generation(_, id) => ["generations", id, "manifest.json"]
    case Pack(_, sha256) => ["packs", "pack-" + sha256 + ".pack"]
    case Commit(_, sha) => ["manifests", "commits", sha[..2], sha + JSON]
    case Ref(_, name) =>
      if IsBranch(name) then
        BranchBytes(name);
        ["manifests", "refs", "heads", Encode(name[|HEADS|..]) + JSON]
      else ["manifests", "refs", Encode(name) + JSON]
    case DefaultRef(_) => ["manifests", "refs", "default.json"]
    case RepoHead(_) => ["manifests", "generation-head.json"]
    case Observation(_, name, id) => ["manifests", "ref-updates", Encode(name), id + JSON]
    case LfsObject(_, oid) => ["lfs", oid[..2], oid[2..4], oid]
  }

  function Segments(k: Key): (r: seq<string>)
    requires WellFormed(k)
    ensures r != []
  {
    RepoPath(k.repo) + Rest(k)
  }

  function Render(k: Key): string
    requires WellFormed(k)
  {
    Joined(Segments(k))
  }

  // ------------------------------------------------------------- keys are accepted

  /** A segment of harmless characters that is neither empty nor a dot name. */
  predicate Tidy(s: string) {
    s != "" && s != "." && s != ".." && forall c | c in s :: IsUnreserved(c) || c == '%'
  }

  predicate AllTidy(segments: seq<string>) {
    forall s | s in segments :: Tidy(s)
  }

  lemma HexIsTidy(s: string)
    requires s != "" && forall c | c in s :: IsHex(c) || c == '-'
    ensures Tidy(s)
  {
    assert s[0] in s;
  }

  lemma WithSuffix(s: string, suffix: string)
    requires |suffix| > 2 && forall c | c in s + suffix :: IsUnreserved(c) || c == '%'
    ensures Tidy(s + suffix)
  {
  }

  /** An encoded ref name is not a dot name, because ref names are not. */
  lemma EncodedRefIsTidy(name: string)
    requires ValidRefName(name)
    ensures IsBytes(name) && Tidy(Encode(name))
  {
    EncodedIsPlain(name);
    PlainIsUnchanged(".");
    PlainIsUnchanged("..");
    SplitPlain(".");
    SplitPlain("..");
    assert "." in Split(".") && ".." in Split("..");
    assert name != "." && name != "..";
    if Encode(name) == "." {
      EncodeIsInjective(name, ".");
    } else if Encode(name) == ".." {
      EncodeIsInjective(name, "..");
    }
  }

  lemma WordsAreTidy()
    ensures Tidy("generations") && Tidy("manifest.json") && Tidy("packs") && Tidy("lfs") && Tidy("repos")
    ensures Tidy("manifests") && Tidy("commits") && Tidy("refs") && Tidy("heads")
    ensures Tidy("default.json") && Tidy("generation-head.json") && Tidy("ref-updates")
  {
    assert Tidy("generations");
    LongWordsAreTidy();
    ShortWordsAreTidy();
  }

  lemma ShortWordsAreTidy()
    ensures Tidy("packs") && Tidy("lfs") && Tidy("repos") && Tidy("commits") && Tidy("refs") && Tidy("heads")
  {
  }

  lemma LongWordsAreTidy()
    ensures Tidy("default.json") && Tidy("manifest.json") && Tidy("manifests") && Tidy("ref-updates")
    ensures Tidy("generation-head.json")
  {
    PlainIsTidy("generation-head.json");
  }

  lemma RefRestIsTidy(repo: string, name: string)
    requires WellFormed(Ref(repo, name))
    ensures AllTidy(Rest(Ref(repo, name)))
  {
    hide ValidRepo, Encode;
    EncodedIsPlain(name);
    WordsAreTidy();
    if IsBranch(name) {
      BranchBytes(name);
      EncodedIsPlain(name[|HEADS|..]);
      WithSuffix(Encode(name[|HEADS|..]), JSON);
    } else {
      WithSuffix(Encode(name), JSON);
    }
    hide Tidy, ValidRefName;
  }

  lemma HashIsTidy(k: Key)
    requires WellFormed(k) && (k.Commit? || k.LfsObject?)
    ensures AllTidy(Rest(k))
  {
    hide ValidRepo;
    WordsAreTidy();
    if k.Commit? {
      HexIsTidy(k.sha[..2]);
      WithSuffix(k.sha, JSON);
    } else {
      HexIsTidy(k.oid);
      HexIsTidy(k.oid[..2]);
      HexIsTidy(k.oid[2..4]);
    }
    hide Tidy;
  }

  lemma RestIsTidy(k: Key)
    requires WellFormed(k)
    ensures AllTidy(Rest(k))
  {
    hide ValidRepo, Encode, ValidRefName;
    WordsAreTidy();
    match k {
      case Generation(_, id) => HexIsTidy(id);
      case Pack(_, sha256) => WithSuffix("pack-" + sha256, ".pack");
      case Commit(_, _) => HashIsTidy(k);
      case Ref(repo, name) => RefRestIsTidy(repo, name);
      case Observation(_, name, id) =>
        EncodedRefIsTidy(name);
        WithSuffix(id, JSON);
      case LfsObject(_, _) => HashIsTidy(k);
      case DefaultRef(_) =>
      case RepoHead(_) =>
    }
    hide Tidy;
  }

  lemma SegmentsAreTidy(k: Key)
    requires WellFormed(k)
    ensures AllTidy(Segments(k)) && Split(Render(k)) == Segments(k)
  {
    RestIsTidy(k);
    assert AllTidy(RepoPath(k.repo));
    hide Rest, Split, WellFormed;
    assert forall s | s in Segments(k) :: Tidy(s) && '/' !in s;
    SplitOfJoined(Segments(k));
  }

  lemma {:induction false} EdgeSegments(s: string)
    requires s != []
    ensures s[0] == '/' ==> "" in Split(s)
    ensures s[|s| - 1] == '/' ==> Split(s)[|Split(s)| - 1] == ""
  {
    assert Split([]) == [[]];
    if |s| > 1 {
      EdgeSegments(s[1..]);
      assert s[1..][|s| - 2] == s[|s| - 1];
    }
  }

  /** A character in no segment is nowhere, unless it is the separator. */
  lemma {:induction false} AbsentFromSegments(s: string, c: char)
    requires c != '/' && forall t | t in Split(s) :: c !in t
    ensures c !in s
  {
    if s != [] {
      var all, rest := Split(s), Split(s[1..]);
      assert s[0] != '/' ==> c !in all[0] && all[0][0] == s[0] && all[0][1..] == rest[0];
      forall i | 0 <= i < |rest|
        ensures c !in rest[i]
      {
        assert s[0] == '/' ==> rest[i] == all[i + 1];
        assert s[0] != '/' && i > 0 ==> rest[i] == all[i];
      }
      AbsentFromSegments(s[1..], c);
      assert s == [s[0]] + s[1..];
    }
  }

  /** Every key the cache builds passes the store's own check. */
  lemma EveryKeyIsAccepted(k: Key)
    requires WellFormed(k)
    ensures ValidKey(Render(k))
  {
    SegmentsAreTidy(k);
    hide WellFormed, Rest, Render, ValidKey, Split;
    assert Segments(k)[0] == "repos";
    TidyIsValid(Render(k));
  }

  lemma TidyIsValid(key: string)
    requires AllTidy(Split(key)) && Split(key)[0] != ""
    ensures ValidKey(key)
  {
    assert key != [] by {
      assert Split([]) == [[]];
    }
    EdgeSegments(key);
    hide Split;
    assert Split(key)[|Split(key)| - 1] in Split(key);
    assert forall s | s in Split(key) :: Tidy(s) && s != "" && '\\' !in s && '\0' !in s;
    hide Tidy;
    AbsentFromSegments(key, '\\');
    AbsentFromSegments(key, '\0');
  }

  // -------------------------------------------------------------- keys stay apart

  lemma SameMiddle(p: string, x: string, y: string, s: string)
    requires p + x + s == p + y + s
    ensures x == y
  {
    assert x == (p + x + s)[|p|..|p| + |x|] && y == (p + y + s)[|p|..|p| + |y|];
  }

  lemma SameBase(x: string, y: string, s: string)
    requires x + s == y + s
    ensures x == y
  {
    assert x == (x + s)[..|x|] && y == (y + s)[..|y|];
  }

  /** A repository's default manifest and the manifest of a ref that is literally called "default". */
  predicate DefaultClash(k: Key, k': Key) {
    k.repo == k'.repo && ((k.DefaultRef? && k' == Ref(k.repo, "default")) || (k'.DefaultRef? && k == Ref(k.repo, "default")))
  }

  lemma SameKeySameParts(k: Key, k': Key)
    requires WellFormed(k) && WellFormed(k') && Render(k) == Render(k')
    ensures k.repo == k'.repo && Rest(k) == Rest(k')
  {
    SegmentsAreTidy(k);
    SegmentsAreTidy(k');
    SameRepo(k.repo, Rest(k), k'.repo, Rest(k'));
  }

  lemma SameRepo(repo: string, rest: seq<string>, repo': string, rest': seq<string>)
    requires |Split(repo)| == |Split(repo')| && RepoPath(repo) + rest == RepoPath(repo') + rest'
    ensures repo == repo' && rest == rest'
  {
    hide Split;
    var p, p' := RepoPath(repo), RepoPath(repo');
    assert p == (p + rest)[..|p|] && p' == (p' + rest')[..|p'|];
    assert rest == (p + rest)[|p|..] && rest' == (p' + rest')[|p'|..];
    assert Split(repo) == p[1..] && Split(repo') == p'[1..];
    JoinedOfSplit(repo);
    JoinedOfSplit(repo');
  }

  /** Distinct things have distinct keys, with exactly one exception. */
  lemma KeysStayApart(k: Key, k': Key)
    requires WellFormed(k) && WellFormed(k')
    ensures Render(k) == Render(k') <==> k == k' || DefaultClash(k, k')
  {
    if Render(k) == Render(k') {
      SameKeySameParts(k, k');
      SameRest(k, k');
    }
    if DefaultClash(k, k') {
      DefaultRest(k.repo);
    }
  }

  /** The exception is real: "default" is a ref name like any other. */
  lemma DefaultCanClash(repo: string)
    requires ValidRepo(repo)
    ensures WellFormed(Ref(repo, "default")) && Render(Ref(repo, "default")) == Render(DefaultRef(repo))
  {
    DefaultIsARefName();
    hide ValidRepo, ValidRefName, Rest;
    assert WellFormed(Ref(repo, "default")) && WellFormed(DefaultRef(repo));
    DefaultRest(repo);
  }

  lemma DefaultIsARefName()
    ensures ValidRefName("default")
  {
    hide ValidRefName;
    var name := "default";
    assert name[|name| - 1] == 't';
    LettersAreARefName(name);
  }

  lemma LettersAreARefName(name: string)
    requires name != "" && name[|name| - 1] != 'k' && forall i | 0 <= i < |name| :: 'a' <= name[i] <= 'z'
    ensures ValidRefName(name)
  {
    SplitPlain(name);
    hide Split;
    assert name[0] != '.';
    assert !EndsWith(name, ".lock") by {
      assert |name| >= 5 ==> name[|name| - 5..][4] == name[|name| - 1];
    }
  }

  lemma DefaultRest(repo: string)
    requires WellFormed(DefaultRef(repo)) && WellFormed(Ref(repo, "default"))
    ensures Rest(DefaultRef(repo)) == Rest(Ref(repo, "default"))
  {
    hide ValidRepo, ValidRefName, Encode, Split;
    PlainIsUnchanged("default");
    assert !IsBranch("default");
    assert "default" + JSON == "default.json";
  }

  lemma NameBytes(name: string)
    requires ValidRefName(name)
    ensures IsBytes(name)
  {
  }

  lemma SameRest(k: Key, k': Key)
    requires WellFormed(k) && WellFormed(k') && k.repo == k'.repo && Rest(k) == Rest(k')
    ensures k == k' || DefaultClash(k, k')
  {
    hide ValidRepo, ValidRefName, Encode;
    var r, r' := Rest(k), Rest(k');
    assert r[0] == r'[0] && r[1] == r'[1];
    match k {
      case Generation(_, id) =>
        assert r[1] == id && k'.Generation?;
      case Pack(_, sha256) =>
        assert k'.Pack?;
        SameMiddle("pack-", sha256, k'.sha256, ".pack");
      case Commit(_, sha) =>
        assert k'.Commit? && r[3] == r'[3];
        SameBase(sha, k'.sha, JSON);
      case Ref(_, name) =>
        assert k'.Ref? || k'.DefaultRef?;
        SameRef(k, k');
      case DefaultRef(_) =>
        assert k'.Ref? || k'.DefaultRef?;
        if k'.Ref? {
          SameRef(k', k);
        }
      case RepoHead(_) =>
        assert k'.RepoHead?;
      case Observation(_, name, id) =>
        assert k'.Observation? && r[2] == r'[2] && r[3] == r'[3];
        NameBytes(name);
        NameBytes(k'.name);
        EncodeIsInjective(name, k'.name);
        SameBase(id, k'.id, JSON);
      case LfsObject(_, oid) =>
        assert k'.LfsObject? && r[3] == r'[3];
    }
  }

  lemma SameRef(k: Key, k': Key)
    requires WellFormed(k) && WellFormed(k') && k.repo == k'.repo && Rest(k) == Rest(k')
    requires k.Ref? && (k'.Ref? || k'.DefaultRef?)
    ensures k == k' || DefaultClash(k, k')
  {
    hide ValidRepo, Encode;
    var r, r' := Rest(k), Rest(k');
    assert r[|r| - 1] == r'[|r| - 1];
    if IsBranch(k.name) {
      assert |r| == 4 && |r'| == 4;
      assert k'.Ref? && IsBranch(k'.name);
      var x, y := k.name[|HEADS|..], k'.name[|HEADS|..];
      BranchBytes(k.name);
      BranchBytes(k'.name);
      SameBase(Encode(x), Encode(y), JSON);
      EncodeIsInjective(x, y);
      assert k.name == HEADS + x && k'.name == HEADS + y;
    } else if k'.Ref? {
      assert !IsBranch(k'.name);
      SameBase(Encode(k.name), Encode(k'.name), JSON);
      EncodeIsInjective(k.name, k'.name);
    } else {
      assert "default" + JSON == "default.json";
      SameBase(Encode(k.name), "default", JSON);
      PlainIsUnchanged("default");
      EncodeIsInjective(k.name, "default");
    }
  }

  // --------------------------------------------------------------------- listings

  /** The prefix under which a repository's keys of one kind are listed. */
  function Prefix(repo: string, folder: string): string {
    Joined(RepoPath(repo) + [folder]) + "/"
  }

  /** Listing a prefix finds the repository's own generations, or packs, and nothing else. */
  lemma ListingsAreExact(k: Key, repo: string)
    requires WellFormed(k) && ValidRepo(repo)
    ensures Prefix(repo, "generations") <= Render(k) <==> k.Generation? && k.repo == repo
    ensures Prefix(repo, "packs") <= Render(k) <==> k.Pack? && k.repo == repo
    ensures Prefix(repo, "manifests") <= Render(k) <==> IsManifest(k) && k.repo == repo
  {
    PlainIsTidy("generations");
    PlainIsTidy("packs");
    PlainIsTidy("manifests");
    UnderPrefix(k, repo, "generations");
    UnderPrefix(k, repo, "packs");
    UnderPrefix(k, repo, "manifests");
    hide Prefix, Render, Encode, ValidRepo, ValidRefName;
    assert Rest(k)[0] == "generations" <==> k.Generation?;
    assert Rest(k)[0] == "packs" <==> k.Pack?;
    assert Rest(k)[0] == "manifests" <==> IsManifest(k);
    assert |Rest(k)| > 1;
  }

  lemma PlainIsTidy(s: string)
    requires |s| > 2 && forall c | c in s :: IsUnreserved(c)
    ensures Tidy(s)
  {
  }

  lemma UnderPrefix(k: Key, repo: string, folder: string)
    requires WellFormed(k) && ValidRepo(repo) && Tidy(folder)
    ensures Prefix(repo, folder) <= Render(k) <==> repo == k.repo && Rest(k)[0] == folder && |Rest(k)| > 1
  {
    SegmentsAreTidy(k);
    assert |Split(repo)| == 3 && |Split(k.repo)| == 3;
    FolderPath(repo, folder);
    PrefixOfJoined(repo, folder, k.repo, Rest(k));
  }

  lemma FolderPath(repo: string, folder: string)
    requires ValidRepo(repo) && Tidy(folder)
    ensures Split(Joined(RepoPath(repo) + [folder])) == RepoPath(repo) + [folder]
  {
    var p := RepoPath(repo) + [folder];
    assert AllTidy(RepoPath(repo));
    hide Split, ValidRepo, RepoPath;
    assert forall s | s in p :: Tidy(s) && '/' !in s;
    SplitOfJoined(p);
  }

  lemma PrefixOfJoined(repo: string, folder: string, repo': string, rest: seq<string>)
    requires rest != [] && |Split(repo)| == |Split(repo')|
    requires Split(Joined(RepoPath(repo) + [folder])) == RepoPath(repo) + [folder]
    requires Split(Joined(RepoPath(repo') + rest)) == RepoPath(repo') + rest
    ensures Prefix(repo, folder) <= Joined(RepoPath(repo') + rest) <==> repo == repo' && rest[0] == folder && |rest| > 1
  {
    hide Split, Joined, RepoPath;
    if Prefix(repo, folder) <= Joined(RepoPath(repo') + rest) {
      CutAfter(Joined(RepoPath(repo) + [folder]), Joined(RepoPath(repo') + rest));
      var more := SplitTail(RepoPath(repo), folder, RepoPath(repo') + rest);
      SameRepo(repo, [folder] + more, repo', rest);
    }
    if repo == repo' && rest[0] == folder && |rest| > 1 {
      JoinedUnder(RepoPath(repo), rest);
    }
  }

  lemma SplitTail(p: seq<string>, folder: string, all: seq<string>) returns (more: seq<string>)
    requires p + [folder] < all
    ensures more != [] && all == p + ([folder] + more)
  {
    more := all[|p| + 1..];
    assert all == all[..|p| + 1] + more;
  }

  lemma JoinedUnder(p: seq<string>, rest: seq<string>)
    requires |rest| > 1
    ensures Joined(p + [rest[0]]) + "/" <= Joined(p + rest)
  {
    hide Joined;
    JoinedTwo(p + [rest[0]], rest[1..]);
    assert p + rest == p + [rest[0]] + rest[1..];
  }

  lemma CutAfter(start: string, key: string)
    requires start + "/" <= key
    ensures Split(start) < Split(key)
  {
    hide Split;
    var n := |start| + 1;
    var x := key[n..];
    assert key == start + "/" + x by {
      assert key[..n] == start + "/";
    }
    SplitJoined(start, x);
  }

  // ------------------------------------------------------ what repointing reads

  /** How repointing reads what it finds under a key. */
  datatype Reading = AsCommit | AsRef | Skipped

  predicate OccursAt(s: string, t: string, i: nat) {
    i + |t| <= |s| && s[i..i + |t|] == t
  }

  ghost predicate Contains(s: string, t: string) {
    exists i :: OccursAt(s, t, i)
  }

  function Needle(folder: string): string {
    "/manifests/" + folder + "/"
  }

  /** The decision is made on the text of the whole key. */
  ghost function ReadAs(repo: string, key: string): Reading
    requires ValidRepo(repo)
  {
    if Contains(key, Needle("commits")) && EndsWith(key, JSON) then AsCommit
    else if Contains(key, Needle("refs")) && EndsWith(key, JSON) && key != Render(DefaultRef(repo)) then AsRef
    else Skipped
  }

  /** What is stored there: the default manifest is dealt with separately. */
  function Meant(k: Key): Reading {
    if k.Commit? then AsCommit else if k.Ref? && k.name != "default" then AsRef else Skipped
  }

  predicate IsManifest(k: Key) {
    k.Commit? || k.Ref? || k.DefaultRef? || k.RepoHead? || k.Observation?
  }

  /** Two neighbouring parts of the repository's own name. */
  predicate NamedLike(repo: string, folder: string)
    requires |Split(repo)| == 3
  {
    var s := Split(repo);
    (s[0] == "manifests" && s[1] == folder) || (s[1] == "manifests" && s[2] == folder)
  }

  predicate Misleading(repo: string)
    requires ValidRepo(repo)
  {
    NamedLike(repo, "commits") || NamedLike(repo, "refs")
  }

  /** Two neighbouring segments inside a key. */
  predicate PairAt(segments: seq<string>, i: nat, folder: string) {
    0 < i < |segments| - 2 && segments[i] == "manifests" && segments[i + 1] == folder
  }

  lemma PairFound(segments: seq<string>, folder: string) returns (i: nat)
    requires segments != [] && (forall s | s in segments :: '/' !in s) && '/' !in folder
    requires Contains(Joined(segments), Needle(folder))
    ensures PairAt(segments, i, folder)
  {
    hide Split, Joined;
    var key, n := Joined(segments), |Needle(folder)|;
    var at: nat :| OccursAt(key, Needle(folder), at);
    var p, m, q := key[..at], "manifests" + "/" + folder, key[at + n..];
    assert key == p + Needle(folder) + q;
    assert key == p + "/" + (m + "/" + q);
    SplitOfJoined(segments);
    SplitJoined(p, m + "/" + q);
    SplitJoined(m, q);
    SplitJoined("manifests", folder);
    SplitPlain("manifests");
    SplitPlain(folder);
    i := |Split(p)|;
    assert segments == Split(p) + (["manifests"] + [folder] + Split(q));
  }

  lemma PairContained(segments: seq<string>, i: nat, folder: string)
    requires PairAt(segments, i, folder)
    ensures Contains(Joined(segments), Needle(folder))
  {
    hide Joined;
    var a, m, b := segments[..i], ["manifests", folder], segments[i + 2..];
    assert segments == a + (m + b);
    JoinedTwo(a, m + b);
    JoinedTwo(m, b);
    JoinedPair("manifests", folder);
    var key, at := Joined(segments), |Joined(a)|;
    assert key == Joined(a) + "/" + ("manifests" + "/" + folder + "/" + Joined(b));
    assert key == Joined(a) + Needle(folder) + Joined(b);
    assert OccursAt(key, Needle(folder), at);
  }

  lemma JoinedPair(a: string, b: string)
    ensures Joined([a, b]) == a + "/" + b
  {
    assert [a, b][1..] == [b];
  }

  lemma {:induction false} JoinedEnds(segments: seq<string>, suffix: string)
    requires segments != [] && EndsWith(segments[|segments| - 1], suffix)
    ensures EndsWith(Joined(segments), suffix)
  {
    if |segments| > 1 {
      JoinedEnds(segments[1..], suffix);
      var rest := Joined(segments[1..]);
      var all := Joined(segments);
      assert all == segments[0] + "/" + rest;
      assert all[|all| - |suffix|..] == rest[|rest| - |suffix|..];
    }
  }

  lemma ManifestRest(k: Key)
    requires WellFormed(k) && IsManifest(k)
    ensures var r := Rest(k);
            && 2 <= |r| <= 4 && r[0] == "manifests" && EndsWith(r[|r| - 1], JSON)
            && r[1] == (if k.Commit? then "commits" else if k.RepoHead? then "generation-head.json"
                        else if k.Observation? then "ref-updates" else "refs")
            && (k.RepoHead? <==> |r| == 2)
  {
    hide ValidRepo, ValidRefName, Encode;
    assert EndsWith("generation-head.json", JSON) && EndsWith("default.json", JSON);
  }

  /** The neighbouring segments of a key of this shape. */
  lemma PairsOf(name: seq<string>, rest: seq<string>, i: nat, folder: string)
    requires |name| == 3 && 2 <= |rest| <= 4 && rest[0] == "manifests" && rest[1] != "manifests"
    requires folder != "manifests"
    ensures PairAt(["repos"] + name + rest, i, folder) <==>
              || (i == 1 && name[0] == "manifests" && name[1] == folder)
              || (i == 2 && name[1] == "manifests" && name[2] == folder)
              || (i == 4 && |rest| > 2 && rest[1] == folder)
  {
    var s := ["repos"] + name + rest;
    assert s[1] == name[0] && s[2] == name[1] && s[3] == name[2] && s[4] == rest[0] && s[5] == rest[1];
    assert 0 < i < |s| - 2 ==> i in {1, 2, 3, 4, 5};
  }

  lemma SegmentsWithoutSlash(k: Key)
    requires WellFormed(k)
    ensures Segments(k) == ["repos"] + Split(k.repo) + Rest(k) && forall s | s in Segments(k) :: '/' !in s
  {
    SegmentsAreTidy(k);
    hide WellFormed, Rest, Split, Render;
    assert forall s | s in Segments(k) :: Tidy(s);
  }

  /** Where the text that decides can come from: the folder meant, or the repository's name. */
  lemma NeedleInKey(k: Key, folder: string)
    requires WellFormed(k) && IsManifest(k) && folder in {"commits", "refs"}
    ensures Contains(Render(k), Needle(folder)) <==>
              NamedLike(k.repo, folder) || (|Rest(k)| > 2 && Rest(k)[1] == folder)
    ensures EndsWith(Render(k), JSON)
  {
    SegmentsWithoutSlash(k);
    ManifestRest(k);
    var s, name, rest := Segments(k), Split(k.repo), Rest(k);
    assert |name| == 3 && '/' !in folder && rest[1] != "manifests";
    assert s[|s| - 1] == rest[|rest| - 1];
    hide WellFormed, Rest, Split, Joined, Contains, Needle, PairAt, EndsWith, Segments;
    assert Render(k) == Joined(s);
    JoinedEnds(s, JSON);
    PairsOf(name, rest, 1, folder);
    PairsOf(name, rest, 2, folder);
    PairsOf(name, rest, 4, folder);
    if Contains(Render(k), Needle(folder)) {
      var i := PairFound(s, folder);
      PairsOf(name, rest, i, folder);
    } else if PairAt(s, 1, folder) {
      PairContained(s, 1, folder);
    } else if PairAt(s, 2, folder) {
      PairContained(s, 2, folder);
    } else if PairAt(s, 4, folder) {
      PairContained(s, 4, folder);
    }
  }

  /** What one key is read as. */
  lemma OneReading(k: Key)
    requires WellFormed(k) && IsManifest(k)
    ensures !Misleading(k.repo) ==> ReadAs(k.repo, Render(k)) == Meant(k)
    ensures Misleading(k.repo) && k.RepoHead? ==> ReadAs(k.repo, Render(k)) != Meant(k)
  {
    NeedleInKey(k, "commits");
    NeedleInKey(k, "refs");
    ManifestRest(k);
    KeysStayApart(k, DefaultRef(k.repo));
    hide ValidRepo, Rest, Render, Contains, Needle, EndsWith, NamedLike, ValidRefName;
  }

  /**
    Repointing reads every manifest of a repository as what it is exactly when no
    two neighbouring parts of the repository's own name spell one of the two
    folders it looks for.  Otherwise it takes the head for a commit or a ref
    manifest.
  */
  lemma ReadingsAreRight(repo: string)
    requires ValidRepo(repo)
    ensures (forall k | WellFormed(k) && k.repo == repo && IsManifest(k) :: ReadAs(repo, Render(k)) == Meant(k))
            <==> !Misleading(repo)
  {
    hide ValidRepo, ReadAs, Misleading, Render;
    forall k | WellFormed(k) && k.repo == repo && IsManifest(k)
      ensures !Misleading(repo) ==> ReadAs(repo, Render(k)) == Meant(k)
    {
      OneReading(k);
    }
    assert WellFormed(RepoHead(repo));
    OneReading(RepoHead(repo));
  }

  predicate PlainPart(s: string) {
    Tidy(s) && forall c | c in s :: IsUnreserved(c)
  }

  lemma ThreeParts(host: string, owner: string, name: string)
    requires PlainPart(host) && PlainPart(owner) && PlainPart(name)
    ensures var repo := host + "/" + (owner + "/" + name);
            Split(repo) == [host, owner, name] && ValidRepo(repo)
  {
    var repo := host + "/" + (owner + "/" + name);
    assert '/' !in host && '/' !in owner && '/' !in name;
    hide Split, Tidy;
    SplitPlain(host);
    SplitPlain(owner);
    SplitPlain(name);
    SplitJoined(owner, name);
    SplitJoined(host, owner + "/" + name);
    assert Split(repo) == [host, owner, name];
    assert forall s | s in Split(repo) :: PlainPart(s);
    hide PlainPart;
    TidyParts(repo);
  }

  lemma TidyParts(repo: string)
    requires |Split(repo)| == 3 && forall s | s in Split(repo) :: PlainPart(s)
    ensures ValidRepo(repo)
  {
    assert forall s | s in Split(repo) :: '\\' !in s;
    assert repo != "" by {
      assert Split([]) == [[]];
    }
    EdgeSegments(repo);
    hide Split;
    assert Split(repo)[0] in Split(repo);
    AbsentFromSegments(repo, '\\');
    assert !PlainPart("");
  }

  /** Such a name is accepted on every host. */
  lemma SomeNamesMislead(host: string)
    requires PlainPart(host)
    ensures var repo := host + "/" + ("manifests" + "/" + "refs");
            ValidRepo(repo) && Misleading(repo)
  {
    assert PlainPart("manifests") && PlainPart("refs");
    hide PlainPart, Split, ValidRepo;
    ThreeParts(host, "manifests", "refs");
  }
}

/** `extractPublicId`, and when it inverts the URL form it documents:
    https://res.cloudinary.com/<cloud>/<kind>/upload/<version>/<public id>.<extension> */
module CloudinaryUrl {
  import opened Wrappers

  /** `s.split('/')` */
  function Split(s: string): (parts: seq<string>)
    ensures |parts| > 0
  {
    if s == "" then [""]
    else
      var rest := Split(s[1..]);
      if s[0] == '/' then [""] + rest else [[s[0]] + rest[0]] + rest[1..]
  }

  /** `parts.join('/')` */
  function Join(parts: seq<string>): string {
    if parts == [] then ""
    else if |parts| == 1 then parts[0]
    else parts[0] + "/" + Join(parts[1..])
  }

  function IndexOf(parts: seq<string>, x: string): (r: Option<nat>)
    ensures r.Some? ==> r.value < |parts| && parts[r.value] == x && forall j :: 0 <= j < r.value ==> parts[j] != x
  {
    if parts == [] then None
    else if parts[0] == x then Some(0)
    else
      match IndexOf(parts[1..], x)
      case None => None
      case Some(i) => Some(i + 1)
  }

  /** /^v\d+$/ */
  predicate VersionLike(s: string) {
    |s| >= 2 && s[0] == 'v' && forall i :: 1 <= i < |s| ==> '0' <= s[i] <= '9'
  }

  /** The length of the longest suffix of s[..n] without '/' and '.'. */
  function PlainTail(s: string, n: nat): (k: nat)
    requires n <= |s|
    ensures k <= n
    ensures forall i :: n - k <= i < n ==> s[i] != '/' && s[i] != '.'
    ensures k < n ==> s[n - k - 1] == '/' || s[n - k - 1] == '.'
  {
    if n == 0 || s[n - 1] == '/' || s[n - 1] == '.' then 0 else PlainTail(s, n - 1) + 1
  }

  /** `s.replace(/\.[^/.]+$/, '')` */
  function StripExtension(s: string): string {
    var k := PlainTail(s, |s|);
    if 0 < k < |s| && s[|s| - k - 1] == '.' then s[..|s| - k - 1] else s
  }

  function PublicId(url: string): Option<string> {
    var parts := Split(url);
    match IndexOf(parts, "upload")
    case None => None
    case Some(i) =>
      var after := parts[i + 1..];
      var path := if after != [] && VersionLike(after[0]) then after[1..] else after;
      Some(StripExtension(Join(path)))
  }

  /** None is the BadRequest for a URL without an upload segment. */
  method ExtractPublicId(url: string) returns (r: Option<string>)
    ensures r == PublicId(url)
    ensures r.None? <==> "upload" !in Split(url)
  {
    var parts := Split(url);
    IndexOfFacts(parts, "upload");
    var uploadIndex := IndexOf(parts, "upload");
    if uploadIndex.None? { return None; }
    var afterUpload := parts[uploadIndex.value + 1..];
    if |afterUpload| > 0 && VersionLike(afterUpload[0]) {
      afterUpload := afterUpload[1..];
    }
    r := Some(StripExtension(Join(afterUpload)));
  }

  lemma {:induction false} IndexOfFacts(parts: seq<string>, x: string)
    ensures IndexOf(parts, x).None? <==> x !in parts
  {
    if parts != [] {
      IndexOfFacts(parts[1..], x);
      assert parts == [parts[0]] + parts[1..];
    }
  }

  // ----- split and join are inverse -----

  lemma {:induction false} JoinSplit(s: string)
    ensures Join(Split(s)) == s
  {
    if s != "" {
      JoinSplit(s[1..]);
      var rest := Split(s[1..]);
      if s[0] == '/' {
        assert ([""] + rest)[1..] == rest;
        assert "" + "/" + s[1..] == s;
      } else {
        var head := [s[0]] + rest[0];
        assert ([head] + rest[1..])[1..] == rest[1..];
        if |rest| > 1 {
          assert head + "/" + Join(rest[1..]) == [s[0]] + (rest[0] + "/" + Join(rest[1..]));
        }
        assert [s[0]] + s[1..] == s;
      }
    }
  }

  lemma {:induction false} SplitFirst(a: string, b: string)
    requires '/' !in a
    ensures Split(a + "/" + b) == [a] + Split(b)
  {
    if a == "" {
      assert a + "/" + b == "/" + b;
      assert ("/" + b)[1..] == b;
    } else {
      assert (a + "/" + b)[1..] == a[1..] + "/" + b;
      SplitFirst(a[1..], b);
      assert [a[0]] + a[1..] == a;
    }
  }

  /** Splitting undoes joining when no part contains the separator. */
  lemma {:induction false} SplitJoin(parts: seq<string>)
    requires parts != [] && forall p :: p in parts ==> '/' !in p
    ensures Split(Join(parts)) == parts
  {
    assert parts[0] in parts;
    if |parts| == 1 {
      SplitPlain(parts[0]);
    } else {
      SplitJoin(parts[1..]);
      SplitFirst(parts[0], Join(parts[1..]));
    }
  }

  lemma {:induction false} SplitPlain(a: string)
    requires '/' !in a
    ensures Split(a) == [a]
  {
    if a != "" {
      SplitPlain(a[1..]);
      assert [a[0]] + a[1..] == a;
    }
  }

  // ----- the extension -----

  predicate PlainExtension(ext: string) { ext != "" && '/' !in ext && '.' !in ext }

  lemma StripsExactlyTheExtension(id: string, ext: string)
    requires PlainExtension(ext)
    ensures StripExtension(id + "." + ext) == id
  {
    var s := id + "." + ext;
    var k := PlainTail(s, |s|);
    assert s[|id|] == '.';
    assert forall i :: |id| < i < |s| ==> s[i] == ext[i - |id| - 1];
    assert k == |ext|;
    assert s[..|id|] == id;
  }

  /** A string ends in an extension, which goes, or it does not, and stays. */
  lemma NothingElseIsStripped(s: string)
    requires forall id, ext :: PlainExtension(ext) ==> s != id + "." + ext
    ensures StripExtension(s) == s
  {
    var k := PlainTail(s, |s|);
    if 0 < k < |s| && s[|s| - k - 1] == '.' {
      var id, ext := s[..|s| - k - 1], s[|s| - k..];
      assert forall i :: 0 <= i < |ext| ==> ext[i] == s[|s| - k + i];
      assert PlainExtension(ext) && s == id + "." + ext;
    }
  }

  // ----- the round trip -----

  /** The letter v and then digits, one at least. */
  ghost predicate IsVersion(s: string) { exists digits :: digits != "" && AllDigits(digits) && s == "v" + digits }

  predicate AllDigits(s: string) { forall c :: c in s ==> c in "0123456789" }

  lemma VersionLikeIsVersion(s: string)
    ensures VersionLike(s) <==> IsVersion(s)
  {
    if VersionLike(s) {
      var digits := s[1..];
      forall c | c in digits ensures c in "0123456789" {
        var i :| 0 <= i < |digits| && digits[i] == c;
        assert s[i + 1] == c;
        IsDigit(c);
      }
      assert AllDigits(digits) && s == "v" + digits;
    }
    if digits :| digits != "" && AllDigits(digits) && s == "v" + digits {
      forall i | 1 <= i < |s| ensures '0' <= s[i] <= '9' {
        assert s[i] == digits[i - 1] && digits[i - 1] in digits;
        IsDigit(s[i]);
      }
    }
  }

  lemma IsDigit(c: char)
    ensures '0' <= c <= '9' <==> c in "0123456789"
  {
    var all := "0123456789";
    if '0' <= c <= '9' {
      assert c == all[c as int - '0' as int];
    }
  }

  /** What is extracted from any URL: of its parts, those behind the first "upload", without a leading
      version, joined and stripped of the extension. */
  lemma ExtractsWhatFollowsUpload(parts: seq<string>, i: nat)
    requires i < |parts| && (forall x :: x in parts ==> '/' !in x)
    requires parts[i] == "upload" && forall j :: 0 <= j < i ==> parts[j] != "upload"
    ensures var after := parts[i + 1..];
            PublicId(Join(parts)) == Some(StripExtension(Join(if after != [] && IsVersion(after[0]) then after[1..] else after)))
  {
    SplitJoin(parts);
    IndexOfFacts(parts, "upload");
    assert IndexOf(parts, "upload") == Some(i);
    if parts[i + 1..] != [] { VersionLikeIsVersion(parts[i + 1]); }
  }

  lemma NothingWithoutUpload(parts: seq<string>)
    requires parts != [] && (forall x :: x in parts ==> '/' !in x) && "upload" !in parts
    ensures PublicId(Join(parts)) == None
  {
    SplitJoin(parts);
    IndexOfFacts(parts, "upload");
  }

  /** What follows the upload segment of a delivery URL. */
  function Delivered(cloud: string, kind: string, tail: string): string {
    "https:" + "/" + ("" + "/" + ("res.cloudinary.com" + "/" + (cloud + "/" + (kind + "/" + ("upload" + "/" + tail)))))
  }

  predicate Segment(s: string) { '/' !in s && s != "upload" }

  lemma DeliveredParts(cloud: string, kind: string, tail: string)
    requires '/' !in cloud && '/' !in kind
    ensures Split(Delivered(cloud, kind, tail))
            == ["https:"] + (["" ] + (["res.cloudinary.com"] + ([cloud] + ([kind] + (["upload"] + Split(tail))))))
  {
    SplitFirst("upload", tail);
    SplitFirst(kind, "upload" + "/" + tail);
    SplitFirst(cloud, kind + "/" + ("upload" + "/" + tail));
    SplitFirst("res.cloudinary.com", cloud + "/" + (kind + "/" + ("upload" + "/" + tail)));
    SplitFirst("", "res.cloudinary.com" + "/" + (cloud + "/" + (kind + "/" + ("upload" + "/" + tail))));
    SplitFirst("https:", "" + "/" + ("res.cloudinary.com" + "/" + (cloud + "/" + (kind + "/" + ("upload" + "/" + tail)))));
  }

  lemma IndexOfStep(x: string, parts: seq<string>, y: string, i: nat)
    requires x != y && IndexOf(parts, y) == Some(i)
    ensures IndexOf([x] + parts, y) == Some(i + 1)
    ensures i < |parts| ==> ([x] + parts)[i + 2..] == parts[i + 1..]
  {
    assert ([x] + parts)[1..] == parts;
  }

  /** What is extracted from a delivery URL depends only on what follows its upload segment. */
  lemma ExtractDelivered(cloud: string, kind: string, tail: string)
    requires Segment(cloud) && Segment(kind)
    ensures var after := Split(tail);
            PublicId(Delivered(cloud, kind, tail))
            == Some(StripExtension(Join(if VersionLike(after[0]) then after[1..] else after)))
  {
    DeliveredParts(cloud, kind, tail);
    var p5 := ["upload"] + Split(tail);
    assert IndexOf(p5, "upload") == Some(0) && p5[1..] == Split(tail);
    var p4 := [kind] + p5;
    IndexOfStep(kind, p5, "upload", 0);
    var p3 := [cloud] + p4;
    IndexOfStep(cloud, p4, "upload", 1);
    var p2 := ["res.cloudinary.com"] + p3;
    IndexOfStep("res.cloudinary.com", p3, "upload", 2);
    var p1 := [""] + p2;
    IndexOfStep("", p2, "upload", 3);
    assert "https:"[0] != "upload"[0];
    IndexOfStep("https:", p1, "upload", 4);
  }

  /** Any public id whatsoever, slashes and dots included, comes back from its versioned URL. */
  lemma VersionedRoundTrip(cloud: string, kind: string, version: string, id: string, ext: string)
    requires Segment(cloud) && Segment(kind) && IsVersion(version) && PlainExtension(ext)
    ensures PublicId(Delivered(cloud, kind, version + "/" + (id + "." + ext))) == Some(id)
  {
    var path := id + "." + ext;
    VersionLikeIsVersion(version);
    ExtractDelivered(cloud, kind, version + "/" + path);
    SplitFirst(version, path);
    assert ([version] + Split(path))[1..] == Split(path);
    JoinSplit(path);
    StripsExactlyTheExtension(id, ext);
  }

  /** From a URL without a version it comes back exactly if the path does not itself begin with a
      segment that looks like one. */
  lemma UnversionedRoundTripExactly(cloud: string, kind: string, id: string, ext: string)
    requires Segment(cloud) && Segment(kind) && PlainExtension(ext)
    ensures PublicId(Delivered(cloud, kind, id + "." + ext)) == Some(id) <==> !IsVersion(Split(id + "." + ext)[0])
  {
    VersionLikeIsVersion(Split(id + "." + ext)[0]);
    var path := id + "." + ext;
    var parts := Split(path);
    ExtractDelivered(cloud, kind, path);
    JoinSplit(path);
    StripsExactlyTheExtension(id, ext);
    if VersionLike(parts[0]) {
      JoinShorter(parts);
      StripShorter(path, Join(parts[1..]), id, ext);
    }
  }

  lemma JoinShorter(parts: seq<string>)
    requires parts != [] && |parts[0]| >= 1
    ensures |parts| > 1 ==> Join(parts) == parts[0] + "/" + Join(parts[1..])
    ensures |Join(parts[1..])| + 1 <= |Join(parts)|
  {
  }

  /** The rest of the path after its first segment, stripped, is shorter than the id, or empty when
      there was no further segment, in which case the first segment was the id with its dot. */
  lemma StripShorter(path: string, rest: string, id: string, ext: string)
    requires path == id + "." + ext && PlainExtension(ext) && VersionLike(Split(path)[0]) && rest == Join(Split(path)[1..])
    ensures StripExtension(rest) != id
  {
    var parts := Split(path);
    JoinSplit(path);
    if |parts| == 1 {
      assert path == parts[0];
      assert path[|id|] == '.';
    } else {
      JoinShorter(parts);
      var v := parts[0];
      assert path == v + "/" + rest;
      assert path[|path| - |rest|..] == rest;
      assert forall i :: |id| <= i < |path| ==> path[i] == if i == |id| then '.' else ext[i - |id| - 1];
      assert path[|v|] == '/';
      var n := |v| + 1;
      assert n <= |id|;
      assert rest == path[n..] && path[n..] == id[n..] + "." + ext;
      StripsExactlyTheExtension(id[n..], ext);
    }
  }
}

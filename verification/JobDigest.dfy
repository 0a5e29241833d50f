/** The canonical bytes that a job signature covers (jobsign/signing.go). Text is its bytes. */
module JobDigest {
  import opened Prelude
  import opened StringOrder

  /** A byte, kept as the character with that code. */
  type Byte = c: char | c as int < 256

  type Bytes = seq<Byte>

  const SignatureFileName := ".kive-job.crt"
  const Prefix: Bytes := "kive-job-signature-v1" + [0 as char]

  datatype File = File(path: Bytes, content: Bytes, isDir: bool)

  datatype Snapshot = Snapshot(jobName: Bytes, files: seq<File>)

  // ---- Lengths in eight bytes, most significant first ----

  function Digits(n: nat, count: nat): (r: Bytes)
    ensures |r| == count
  {
    if count == 0 then [] else Digits(n / 256, count - 1) + [(n % 256) as char]
  }

  function Number(bs: Bytes): nat {
    if bs == [] then 0 else Number(bs[..|bs| - 1]) * 256 + bs[|bs| - 1] as int
  }

  const MaxLength: nat := 0x1_0000_0000_0000_0000

  function Power(count: nat): nat {
    if count == 0 then 1 else 256 * Power(count - 1)
  }

  lemma {:induction false} NumberOfDigits(n: nat, count: nat)
    requires n < Power(count)
    ensures Number(Digits(n, count)) == n
  {
    if count > 0 {
      NumberOfDigits(n / 256, count - 1);
      var bs := Digits(n, count);
      assert bs[..|bs| - 1] == Digits(n / 256, count - 1);
    }
  }

  lemma EightBytes()
    ensures Power(8) == MaxLength
  {
    assert Power(2) == 0x1_0000;
    assert Power(4) == 0x1_0000_0000;
  }

  function LengthPrefixed(v: Bytes): Bytes {
    Digits(|v|, 8) + v
  }

  // ---- The canonical bytes ----

  function SignaturePath(job: Bytes): Bytes {
    job + "/" + SignatureFileName
  }

  /** Regular files other than the signature bundle. */
  predicate Covers(job: Bytes, f: File) {
    !f.isDir && f.path != SignaturePath(job)
  }

  function TrimPrefix(path: Bytes, prefix: Bytes): Bytes {
    if prefix <= path then path[|prefix|..] else path
  }

  predicate Inside(job: Bytes, path: Bytes) {
    job + "/" <= path && |path| > |job| + 1
  }

  function Body(job: Bytes, files: seq<File>): Result<Bytes, Bytes> {
    if files == [] then Ok([])
    else if !Covers(job, files[0]) then Body(job, files[1..])
    else
      var rel := TrimPrefix(files[0].path, job + "/");
      if rel == files[0].path || rel == [] then Err(files[0].path)
      else
        var rest :- Body(job, files[1..]);
        Ok(LengthPrefixed(rel) + LengthPrefixed(files[0].content) + rest)
  }

  /** What is hashed, or the path that is not below the job. */
  function Canonical(s: Snapshot): Result<Bytes, Bytes> {
    var body :- Body(s.jobName, s.files);
    Ok(Prefix + body)
  }

  function After(written: Bytes, rest: Result<Bytes, Bytes>): Result<Bytes, Bytes> {
    if rest.Err? then rest else Ok(written + rest.value)
  }

  lemma AfterConcat(a: Bytes, b: Bytes, rest: Result<Bytes, Bytes>)
    ensures After(a, After(b, rest)) == After(a + b, rest)
  {
    assert rest.Ok? ==> a + (b + rest.value) == a + b + rest.value;
  }

  method CanonicalBytes(s: Snapshot) returns (r: Result<Bytes, Bytes>)
    ensures r == Canonical(s)
  {
    hide LengthPrefixed, Covers, TrimPrefix;
    var canonical: Bytes := Prefix;
    ghost var body: Bytes := [];
    assert s.files[0..] == s.files;
    assert forall x: Bytes :: body + x == x;
    for k := 0 to |s.files|
      invariant canonical == Prefix + body
      invariant Body(s.jobName, s.files) == After(body, Body(s.jobName, s.files[k..]))
    {
      var file := s.files[k];
      assert s.files[k..][1..] == s.files[k + 1..];
      if !Covers(s.jobName, file) {
        continue;
      }
      var rel := TrimPrefix(file.path, s.jobName + "/");
      if rel == file.path || rel == [] {
        return Err(file.path);
      }
      ghost var entry := LengthPrefixed(rel) + LengthPrefixed(file.content);
      AfterConcat(body, entry, Body(s.jobName, s.files[k + 1..]));
      canonical := canonical + LengthPrefixed(rel);
      canonical := canonical + LengthPrefixed(file.content);
      body := body + entry;
    }
    assert body + [] == body;
    return Ok(canonical);
  }

  // ---- Reading the bytes back ----

  datatype Entry = Entry(rel: Bytes, content: Bytes)

  function Encode(es: seq<Entry>): Bytes {
    if es == [] then [] else LengthPrefixed(es[0].rel) + LengthPrefixed(es[0].content) + Encode(es[1..])
  }

  function TakeField(bs: Bytes): (r: Option<(Bytes, Bytes)>)
    ensures r.Some? ==> |r.value.1| < |bs|
  {
    if |bs| < 8 || |bs| - 8 < Number(bs[..8]) then None
    else Some((bs[8..8 + Number(bs[..8])], bs[8 + Number(bs[..8])..]))
  }

  function Decode(bs: Bytes): Option<seq<Entry>>
    decreases |bs|
  {
    if bs == [] then Some([])
    else
      match TakeField(bs)
      case None => None
      case Some((rel, more)) =>
        match TakeField(more)
        case None => None
        case Some((content, rest)) =>
          match Decode(rest)
          case None => None
          case Some(es) => Some([Entry(rel, content)] + es)
  }

  lemma TakesField(v: Bytes, rest: Bytes)
    requires |v| < MaxLength
    ensures LengthPrefixed(v) + rest != [] && TakeField(LengthPrefixed(v) + rest) == Some((v, rest))
  {
    hide Digits, Number, Power;
    var bs := LengthPrefixed(v) + rest;
    assert bs[..8] == Digits(|v|, 8);
    EightBytes();
    NumberOfDigits(|v|, 8);
    assert bs[8..8 + |v|] == v && bs[8 + |v|..] == rest;
  }

  /** Lengths that a slice can have. */
  ghost predicate Sized(es: seq<Entry>) {
    forall e :: e in es ==> |e.rel| < MaxLength && |e.content| < MaxLength
  }

  lemma {:induction false} DecodesEncoded(es: seq<Entry>)
    requires Sized(es)
    ensures Decode(Encode(es)) == Some(es)
  {
    hide LengthPrefixed, TakeField;
    if es != [] {
      var e, rest := es[0], Encode(es[1..]);
      assert LengthPrefixed(e.rel) + LengthPrefixed(e.content) + rest ==
             LengthPrefixed(e.rel) + (LengthPrefixed(e.content) + rest);
      TakesField(e.rel, LengthPrefixed(e.content) + rest);
      TakesField(e.content, rest);
      DecodesEncoded(es[1..]);
      assert [e] + es[1..] == es;
    }
  }

  // ---- What the bytes determine ----

  function Covered(job: Bytes, files: seq<File>): seq<File> {
    if files == [] then []
    else if Covers(job, files[0]) then [files[0]] + Covered(job, files[1..])
    else Covered(job, files[1..])
  }

  lemma {:induction false} CoveredMember(job: Bytes, files: seq<File>)
    ensures forall f :: f in Covered(job, files) <==> f in files && Covers(job, f)
  {
    hide Covers;
    if files != [] {
      CoveredMember(job, files[1..]);
      assert files == [files[0]] + files[1..];
    }
  }

  ghost predicate AllInside(job: Bytes, files: seq<File>) {
    forall f :: f in files && Covers(job, f) ==> Inside(job, f.path)
  }

  function EntryOf(job: Bytes, f: File): Entry
    requires Inside(job, f.path)
  {
    Entry(f.path[|job| + 1..], f.content)
  }

  function Entries(job: Bytes, covered: seq<File>): (es: seq<Entry>)
    requires forall f :: f in covered ==> Inside(job, f.path)
    ensures |es| == |covered|
    ensures forall i :: 0 <= i < |es| ==> es[i] == EntryOf(job, covered[i])
  {
    if covered == [] then [] else [EntryOf(job, covered[0])] + Entries(job, covered[1..])
  }

  lemma TrimInside(job: Bytes, path: Bytes)
    ensures var rel := TrimPrefix(path, job + "/");
            (rel != path && rel != [] <==> Inside(job, path)) && (Inside(job, path) ==> rel == path[|job| + 1..])
  {
  }

  /** The body is the encoding of the covered files, and exists exactly when each lies below the job. */
  lemma {:induction false} BodyEncodes(job: Bytes, files: seq<File>)
    ensures Body(job, files).Ok? <==> AllInside(job, files)
    ensures (forall f :: f in Covered(job, files) ==> Inside(job, f.path)) <==> AllInside(job, files)
    ensures AllInside(job, files) ==> Body(job, files).value == Encode(Entries(job, Covered(job, files)))
  {
    hide LengthPrefixed, Covers, Inside, TrimPrefix;
    CoveredMember(job, files);
    if files != [] {
      assert files == [files[0]] + files[1..];
      BodyEncodes(job, files[1..]);
      TrimInside(job, files[0].path);
      assert Body(job, files[1..]).Ok? ==> AllInside(job, files[1..]);
    }
  }

  ghost function Paths(files: seq<File>): (ps: seq<string>)
    ensures |ps| == |files| && forall i :: 0 <= i < |ps| ==> ps[i] == files[i].path
  {
    seq(|files|, i requires 0 <= i < |files| => files[i].path)
  }

  /** As capture leaves them: sorted by path, no path twice. */
  ghost predicate Ordered(files: seq<File>) {
    forall i, j :: 0 <= i < j < |files| ==> Less(files[i].path, files[j].path)
  }

  lemma {:induction false} CoveredOrdered(job: Bytes, files: seq<File>)
    requires Ordered(files)
    ensures Ordered(Covered(job, files))
  {
    hide Covers, Less;
    if files != [] {
      CoveredOrdered(job, files[1..]);
      CoveredMember(job, files[1..]);
      var rest := Covered(job, files[1..]);
      forall j | 0 <= j < |rest|
        ensures Less(files[0].path, rest[j].path)
      {
        assert rest[j] in files[1..];
        var k :| 0 <= k < |files[1..]| && files[1..][k] == rest[j];
        assert files[k + 1] == rest[j];
      }
    }
  }

  lemma SamePaths(xs: seq<File>, ys: seq<File>)
    requires forall f :: f in xs ==> f in ys
    ensures forall p :: p in Paths(xs) ==> p in Paths(ys)
  {
    forall p | p in Paths(xs)
      ensures p in Paths(ys)
    {
      var i :| 0 <= i < |xs| && Paths(xs)[i] == p;
      assert xs[i] in ys;
      var j :| 0 <= j < |ys| && ys[j] == xs[i];
      assert Paths(ys)[j] == p;
    }
  }

  lemma OrderedUnique(xs: seq<File>, ys: seq<File>)
    requires Ordered(xs) && Ordered(ys) && forall f :: f in xs <==> f in ys
    ensures xs == ys
  {
    hide Less;
    SamePaths(xs, ys);
    SamePaths(ys, xs);
    SortedUnique(Paths(xs), Paths(ys));
    forall i | 0 <= i < |xs|
      ensures xs[i] == ys[i]
    {
      assert xs[i] in ys;
      var j :| 0 <= j < |ys| && ys[j] == xs[i];
      assert Paths(xs)[i] == Paths(ys)[i];
      LessTotal(ys[i].path, ys[i].path);
    }
  }

  /** The regular files apart from the signature, without their order. */
  ghost function Regular(s: Snapshot): set<File> {
    set f | f in s.files && Covers(s.jobName, f)
  }

  lemma {:induction false} EntriesInjective(job: Bytes, xs: seq<File>, ys: seq<File>)
    requires forall f :: f in xs || f in ys ==> Inside(job, f.path) && !f.isDir
    requires Entries(job, xs) == Entries(job, ys)
    ensures xs == ys
  {
    assert |xs| == |ys|;
    forall i | 0 <= i < |xs|
      ensures xs[i] == ys[i]
    {
      assert xs[i] in xs && ys[i] in ys;
      assert EntryOf(job, xs[i]) == EntryOf(job, ys[i]);
      assert xs[i].path == (job + "/") + xs[i].path[|job| + 1..];
      assert ys[i].path == (job + "/") + ys[i].path[|job| + 1..];
    }
  }

  ghost predicate FilesSized(files: seq<File>) {
    forall f :: f in files ==> |f.path| < MaxLength && |f.content| < MaxLength
  }

  lemma EntriesSized(job: Bytes, files: seq<File>)
    requires FilesSized(files) && AllInside(job, files)
    ensures forall f :: f in Covered(job, files) ==> Inside(job, f.path)
    ensures Sized(Entries(job, Covered(job, files)))
  {
    CoveredMember(job, files);
    var covered := Covered(job, files);
    var es := Entries(job, covered);
    forall e | e in es
      ensures |e.rel| < MaxLength && |e.content| < MaxLength
    {
      var i :| 0 <= i < |es| && es[i] == e;
      assert covered[i] in files;
    }
  }

  /** Equal canonical bytes mean the same covered files in the same order. */
  lemma CanonicalInjective(s: Snapshot, t: Snapshot)
    requires s.jobName == t.jobName && FilesSized(s.files) && FilesSized(t.files)
    requires Canonical(s).Ok? && Canonical(s) == Canonical(t)
    ensures Covered(s.jobName, s.files) == Covered(t.jobName, t.files)
  {
    hide LengthPrefixed, Covers, Inside, Body, Encode, Decode, Covered;
    var job := s.jobName;
    BodyEncodes(job, s.files);
    BodyEncodes(job, t.files);
    EntriesSized(job, s.files);
    EntriesSized(job, t.files);
    var xs, ys := Covered(job, s.files), Covered(job, t.files);
    assert Canonical(s).value[|Prefix|..] == Encode(Entries(job, xs));
    assert Canonical(t).value[|Prefix|..] == Encode(Entries(job, ys));
    DecodesEncoded(Entries(job, xs));
    DecodesEncoded(Entries(job, ys));
    NotDirs(job, s.files);
    NotDirs(job, t.files);
    EntriesInjective(job, xs, ys);
  }

  lemma NotDirs(job: Bytes, files: seq<File>)
    ensures forall f :: f in Covered(job, files) ==> !f.isDir
  {
    CoveredMember(job, files);
  }

  /** The covered files alone decide the outcome. */
  lemma {:induction false} BodyOfCovered(job: Bytes, files: seq<File>)
    ensures Body(job, files) == Body(job, Covered(job, files))
  {
    hide LengthPrefixed, TrimPrefix, Covers;
    if files != [] {
      BodyOfCovered(job, files[1..]);
    }
  }

  /** Two captures of a job have the same canonical bytes exactly when they hold the same regular files with the
      same contents, signature aside. */
  lemma SameBytesSameFiles(s: Snapshot, t: Snapshot)
    requires s.jobName == t.jobName && Ordered(s.files) && Ordered(t.files)
    requires FilesSized(s.files) && FilesSized(t.files)
    requires Canonical(s).Ok?
    ensures Canonical(s) == Canonical(t) <==> Regular(s) == Regular(t)
  {
    hide Body, Less, Covers, Covered;
    var job := s.jobName;
    CoveredMember(job, s.files);
    CoveredMember(job, t.files);
    var xs, ys := Covered(job, s.files), Covered(job, t.files);
    if Canonical(s) == Canonical(t) {
      CanonicalInjective(s, t);
      forall f
        ensures f in Regular(s) <==> f in Regular(t)
      {
        assert f in xs <==> f in ys;
      }
    }
    if Regular(s) == Regular(t) {
      CoveredOrdered(job, s.files);
      CoveredOrdered(job, t.files);
      forall f
        ensures f in xs <==> f in ys
      {
        assert f in Regular(s) <==> f in Regular(t);
      }
      OrderedUnique(xs, ys);
      BodyOfCovered(job, s.files);
      BodyOfCovered(job, t.files);
    }
  }

  /** Adding, replacing or removing the signature bundle at any place changes nothing. */
  lemma SignatureNotCovered(s: Snapshot, at: nat, old': seq<Bytes>, new': seq<Bytes>)
    requires at + |old'| <= |s.files|
    requires forall k :: 0 <= k < |old'| ==> s.files[at + k] == File(SignaturePath(s.jobName), old'[k], false)
    ensures var bundle := seq(|new'|, k requires 0 <= k < |new'| => File(SignaturePath(s.jobName), new'[k], false));
            Canonical(s) == Canonical(s.(files := s.files[..at] + bundle + s.files[at + |old'|..]))
  {
    hide Body, SignaturePath;
    var job, files := s.jobName, s.files;
    var was := seq(|old'|, k requires 0 <= k < |old'| => File(SignaturePath(job), old'[k], false));
    var now := seq(|new'|, k requires 0 <= k < |new'| => File(SignaturePath(job), new'[k], false));
    var before, after := files[..at], files[at + |old'|..];
    assert files == before + was + after;
    CoveredConcat(job, before + was, after);
    CoveredConcat(job, before, was);
    CoveredConcat(job, before + now, after);
    CoveredConcat(job, before, now);
    NoneCovered(job, was);
    NoneCovered(job, now);
    BodyOfCovered(job, files);
    BodyOfCovered(job, before + now + after);
  }

  lemma {:induction false} CoveredConcat(job: Bytes, xs: seq<File>, ys: seq<File>)
    ensures Covered(job, xs + ys) == Covered(job, xs) + Covered(job, ys)
  {
    hide Covers;
    if xs == [] {
      assert xs + ys == ys;
    } else {
      assert (xs + ys)[1..] == xs[1..] + ys;
      CoveredConcat(job, xs[1..], ys);
    }
  }

  lemma {:induction false} NoneCovered(job: Bytes, xs: seq<File>)
    requires forall f :: f in xs ==> !Covers(job, f)
    ensures Covered(job, xs) == []
  {
    hide Covers;
    if xs != [] {
      NoneCovered(job, xs[1..]);
    }
  }

  /** One file: length and name below the job, then length and content. */
  lemma OneFile(job: Bytes, name: Bytes, content: Bytes)
    requires name != [] && name != SignatureFileName
    ensures Body(job, [File(job + "/" + name, content, false)]) == Ok(LengthPrefixed(name) + LengthPrefixed(content))
  {
    hide LengthPrefixed, Covers, TrimPrefix, Body;
    NameBelow(job, name, content);
    OneBody(job, File(job + "/" + name, content, false), name);
  }

  lemma NameBelow(job: Bytes, name: Bytes, content: Bytes)
    requires name != [] && name != SignatureFileName
    ensures var f := File(job + "/" + name, content, false);
            Covers(job, f) && TrimPrefix(f.path, job + "/") == name && f.path != name
  {
    var dir := job + "/";
    assert (dir + name)[|dir|..] == name && dir <= dir + name;
    assert SignaturePath(job)[|dir|..] == SignatureFileName;
    assert |dir + name| > |name|;
  }

  lemma OneBody(job: Bytes, f: File, name: Bytes)
    requires Covers(job, f) && TrimPrefix(f.path, job + "/") == name && name != [] && f.path != name
    ensures Body(job, [f]) == Ok(LengthPrefixed(name) + LengthPrefixed(f.content))
  {
    hide Covers, TrimPrefix, LengthPrefixed;
    EmptyBody(job);
    assert [f][1..] == [];
    var body := LengthPrefixed(name) + LengthPrefixed(f.content);
    assert body + [] == body;
  }

  lemma EmptyBody(job: Bytes)
    ensures Body(job, []) == Ok([])
  {
  }

  /** A length below 256 is seven zero bytes and one byte. */
  lemma Small(n: nat)
    requires n < 256
    ensures Digits(n, 8) == seq(7, _ => 0 as char) + [n as char]
  {
    Zeros(7);
    assert n / 256 == 0 && n % 256 == n;
  }

  lemma {:induction false} Zeros(count: nat)
    ensures Digits(0, count) == seq(count, _ => 0 as char)
  {
    if count > 0 {
      Zeros(count - 1);
    }
  }
}

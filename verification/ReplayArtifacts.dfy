/** Artifact references, portable locators and the content-addressed payload store
    (packs/activity_normalizer/replay.py).  The hash is a parameter; nothing but the shape of its
    digests is assumed of it, so collisions stay possible and are named where they matter. */
module ReplayArtifacts {
  import opened Prelude

  datatype Error = BadDigest | Integrity | Unavailable

  predicate IsHex(c: char) { '0' <= c <= '9' || 'a' <= c <= 'f' }

  predicate AllHex(s: string) { forall i :: 0 <= i < |s| ==> IsHex(s[i]) }

  predicate IsDigest(s: string) { |s| == 64 && AllHex(s) }

  const REF := "artifact://sha256/"
  const LEGACY := "sha256:"
  const LOCATOR := "artifact-key://sha256/"

  // ----- references

  function ArtifactRef(digest: string): Result<string, Error> {
    if IsDigest(digest) then Ok(REF + digest[..2] + "/" + digest) else Err(BadDigest)
  }

  function DigestFromRef(ref: string): Result<string, Error> {
    if |ref| == |REF| + 67 && ref[..|REF|] == REF && AllHex(ref[|REF|..|REF| + 2]) && ref[|REF| + 2] == '/' &&
        IsDigest(ref[|REF| + 3..])
    then (if ref[|REF|..|REF| + 2] == ref[|REF| + 3..][..2] then Ok(ref[|REF| + 3..]) else Err(Integrity))
    else if |ref| == |LEGACY| + 64 && ref[..|LEGACY|] == LEGACY && IsDigest(ref[|LEGACY|..]) then Ok(ref[|LEGACY|..])
    else Err(Integrity)
  }

  /** A digest is 64 lower-case hexadecimal digits. */
  lemma DigestIff(digest: string)
    ensures IsDigest(digest) <==> |digest| == 64 && forall i :: 0 <= i < |digest| ==> digest[i] in "0123456789abcdef"
  {
    forall i | 0 <= i < |digest| ensures IsHex(digest[i]) <==> digest[i] in "0123456789abcdef" {
      HexDigits(digest[i]);
    }
  }

  lemma HexDigits(c: char)
    ensures IsHex(c) <==> c in "0123456789abcdef"
  {
    var digits := "0123456789abcdef";
    if IsHex(c) { assert c == digits[if c <= '9' then (c - '0') as int else 10 + (c - 'a') as int]; }
  }

  /** A canonical reference decodes to the digest it encodes. */
  lemma RefDecodes(digest: string)
    requires IsDigest(digest)
    ensures DigestFromRef(ArtifactRef(digest).value) == Ok(digest)
  {
    var ref := ArtifactRef(digest).value;
    assert ref[|REF| + 3..] == digest && ref[|REF|..|REF| + 2] == digest[..2];
  }

  /** The accepted references of a digest are its canonical and its legacy form, no others. */
  lemma RefAcceptedIff(ref: string, digest: string)
    ensures DigestFromRef(ref) == Ok(digest) <==>
            IsDigest(digest) &&
            (ref == "artifact://sha256/" + digest[..2] + "/" + digest || ref == "sha256:" + digest)
  {
    if DigestFromRef(ref) == Ok(digest) {
      if ref != LEGACY + digest {
        assert ref == ref[..|REF|] + ref[|REF|..|REF| + 2] + [ref[|REF| + 2]] + ref[|REF| + 3..];
      }
    } else if IsDigest(digest) {
      RefDecodes(digest);
      assert (LEGACY + digest)[|LEGACY|..] == digest;
    }
  }

  // ----- portable locators

  /** Chunks of eight characters joined by dots. */
  function Dotted(s: string): string {
    if |s| <= 8 then s else s[..8] + "." + Dotted(s[8..])
  }

  function Undotted(s: string): string {
    if s == [] then [] else (if s[0] == '.' then [] else [s[0]]) + Undotted(s[1..])
  }

  /** `n` chunks of eight hex characters, separated by dots. */
  predicate IsDotted(s: string, n: nat) {
    if n <= 1 then |s| == 8 && AllHex(s)
    else |s| == 9 * n - 1 && AllHex(s[..8]) && s[8] == '.' && IsDotted(s[9..], n - 1)
  }

  function PortableLocator(digest: string): Result<string, Error> {
    if IsDigest(digest) then Ok(LOCATOR + digest[..2] + "/" + Dotted(digest)) else Err(BadDigest)
  }

  /** The canonical reference and the digest a locator names. */
  function IdentityFromLocator(locator: string): Result<(string, string), Error> {
    var n := |LOCATOR|;
    if |locator| == n + 74 && locator[..n] == LOCATOR && AllHex(locator[n..n + 2]) && locator[n + 2] == '/' &&
        IsDotted(locator[n + 3..], 8)
    then
      var digest := Undotted(locator[n + 3..]);
      if !IsDigest(digest) then Err(BadDigest)
      else if locator[n..n + 2] != digest[..2] then Err(Integrity)
      else Ok((ArtifactRef(digest).value, digest))
    else Err(Integrity)
  }

  lemma {:induction false} UndottedHex(s: string, rest: string)
    requires AllHex(s)
    ensures Undotted(s + rest) == s + Undotted(rest)
  {
    if s == [] {
      assert s + rest == rest;
    } else {
      assert (s + rest)[1..] == s[1..] + rest;
      UndottedHex(s[1..], rest);
    }
  }

  lemma {:induction false} DottedThenUndotted(s: string, n: nat)
    requires n >= 1 && |s| == 8 * n && AllHex(s)
    ensures IsDotted(Dotted(s), n) && |Dotted(s)| == 9 * n - 1 && Undotted(Dotted(s)) == s
  {
    if n == 1 {
      assert s + [] == s;
      UndottedHex(s, []);
    } else {
      DottedThenUndotted(s[8..], n - 1);
      var tail := "." + Dotted(s[8..]);
      assert Dotted(s) == s[..8] + tail && tail[1..] == Dotted(s[8..]);
      assert Dotted(s)[9..] == Dotted(s[8..]);
      UndottedHex(s[..8], tail);
      assert s[..8] + s[8..] == s;
    }
  }

  lemma {:induction false} UndottedThenDotted(t: string, n: nat)
    requires n >= 1 && IsDotted(t, n)
    ensures |Undotted(t)| == 8 * n && AllHex(Undotted(t)) && Dotted(Undotted(t)) == t
  {
    if n == 1 {
      assert t + [] == t;
      UndottedHex(t, []);
    } else {
      UndottedThenDotted(t[9..], n - 1);
      var tail := t[8..];
      assert t == t[..8] + tail && tail[1..] == t[9..] && tail == "." + t[9..];
      UndottedHex(t[..8], tail);
      assert Undotted(tail) == Undotted(t[9..]);
      var u := Undotted(t);
      assert u[..8] == t[..8] && u[8..] == Undotted(t[9..]);
    }
  }

  /** In a dotted text every ninth character is a dot, and the others are the text. */
  lemma {:induction false} DottedAt(s: string, n: nat, k: nat)
    requires n >= 1 && |s| == 8 * n && k < 9 * n - 1
    ensures |Dotted(s)| == 9 * n - 1 && Dotted(s)[k] == if k % 9 == 8 then '.' else s[k - k / 9]
  {
    if n > 1 {
      DottedAt(s[8..], n - 1, if k < 9 then 0 else k - 9);
      assert Dotted(s) == s[..8] + "." + Dotted(s[8..]);
      if k >= 9 { assert (k - 9) / 9 == k / 9 - 1 && (k - 9) % 9 == k % 9; }
    }
  }

  /** A locator is the prefix, the first two digits, and the digest in dotted chunks of eight. */
  lemma LocatorReads(digest: string, k: nat)
    requires IsDigest(digest) && k < 71
    ensures var locator, start := PortableLocator(digest).value, |"artifact-key://sha256/"| + 3;
            && |locator| == start + 71
            && locator[..start] == "artifact-key://sha256/" + digest[..2] + "/"
            && locator[start + k] == if k % 9 == 8 then '.' else digest[k - k / 9]
  {
    DottedAt(digest, 8, k);
  }

  /** Parsing inverts printing on every digest. */
  lemma LocatorRoundTrip(digest: string)
    requires IsDigest(digest)
    ensures IdentityFromLocator(PortableLocator(digest).value) == Ok((ArtifactRef(digest).value, digest))
  {
    var locator, n := PortableLocator(digest).value, |LOCATOR|;
    DottedThenUndotted(digest, 8);
    assert locator[n + 3..] == Dotted(digest) && locator[n..n + 2] == digest[..2];
  }

  /** Printing inverts parsing on every accepted locator: each digest has exactly one. */
  lemma LocatorAcceptedIff(locator: string, digest: string)
    ensures IdentityFromLocator(locator).Ok? && IdentityFromLocator(locator).value.1 == digest <==>
            IsDigest(digest) && locator == PortableLocator(digest).value
  {
    if IdentityFromLocator(locator).Ok? && IdentityFromLocator(locator).value.1 == digest {
      var n := |LOCATOR|;
      UndottedThenDotted(locator[n + 3..], 8);
      assert locator == locator[..n] + locator[n..n + 2] + [locator[n + 2]] + locator[n + 3..];
    } else if IsDigest(digest) {
      LocatorRoundTrip(digest);
    }
  }

  /** The check of the digest's shape never fails on a well-formed locator. */
  lemma LocatorErrors(locator: string)
    ensures IdentityFromLocator(locator).Ok? || IdentityFromLocator(locator).error == Integrity
  {
    var n := |LOCATOR|;
    if |locator| == n + 74 && IsDotted(locator[n + 3..], 8) { UndottedThenDotted(locator[n + 3..], 8); }
  }

  // ----- the store

  type Bytes = seq<bv8>

  type Files = map<string, Bytes>

  function Stored(sha: Bytes -> string, files: Files, payload: Bytes): Files {
    if sha(payload) in files then files else files[sha(payload) := payload]
  }

  function FilesAfter(sha: Bytes -> string, run: seq<Bytes>): Files {
    if run == [] then map[] else Stored(sha, FilesAfter(sha, run[..|run| - 1]), run[|run| - 1])
  }

  function Read(sha: Bytes -> string, files: Files, ref: string, expected: string,
                maxBytes: int): Result<Bytes, Error> {
    var d := DigestFromRef(ref);
    if d.Err? then Err(d.error)
    else if d.value != expected then Err(Integrity)
    else if d.value !in files || |files[d.value]| > maxBytes then Err(Unavailable)
    else if sha(files[d.value]) != expected then Err(Integrity)
    else Ok(files[d.value])
  }

  ghost predicate Digests(sha: Bytes -> string) { forall p :: IsDigest(sha(p)) }

  /** First payload of the run with this digest. */
  ghost predicate FirstWith(sha: Bytes -> string, run: seq<Bytes>, p: Bytes) {
    exists i :: 0 <= i < |run| && run[i] == p && forall j :: 0 <= j < i ==> sha(run[j]) != sha(p)
  }

  lemma {:induction false} FilesHoldFirsts(sha: Bytes -> string, run: seq<Bytes>, d: string)
    ensures d in FilesAfter(sha, run) <==> exists i :: 0 <= i < |run| && sha(run[i]) == d
    ensures d in FilesAfter(sha, run) ==>
              sha(FilesAfter(sha, run)[d]) == d && FirstWith(sha, run, FilesAfter(sha, run)[d])
  {
    if run == [] {
    } else {
      var init, last := run[..|run| - 1], run[|run| - 1];
      FilesHoldFirsts(sha, init, d);
      assert run == init + [last];
      if d in FilesAfter(sha, init) {
        FirstStaysFirst(sha, init, last, FilesAfter(sha, init)[d]);
      } else if sha(last) == d {
        LastIsFirst(sha, init, last);
      }
    }
  }

  lemma FirstStaysFirst(sha: Bytes -> string, init: seq<Bytes>, last: Bytes, p: Bytes)
    requires FirstWith(sha, init, p)
    ensures FirstWith(sha, init + [last], p)
  {
    var i :| 0 <= i < |init| && init[i] == p && forall j :: 0 <= j < i ==> sha(init[j]) != sha(p);
    assert (init + [last])[i] == p;
  }

  lemma LastIsFirst(sha: Bytes -> string, init: seq<Bytes>, last: Bytes)
    requires forall j :: 0 <= j < |init| ==> sha(init[j]) != sha(last)
    ensures FirstWith(sha, init + [last], last)
  {
    assert (init + [last])[|init|] == last;
  }

  /** After any stores, a stored payload reads back unchanged if and only if it fits the bound and
      no different payload with the same digest was stored before it; else the earlier one is read. */
  lemma ReadBackIff(sha: Bytes -> string, run: seq<Bytes>, p: Bytes, maxBytes: int)
    requires Digests(sha) && p in run
    ensures Read(sha, FilesAfter(sha, run), ArtifactRef(sha(p)).value, sha(p), maxBytes) == Ok(p) <==>
            |p| <= maxBytes && FirstWith(sha, run, p)
  {
    FilesHoldFirsts(sha, run, sha(p));
    RefDecodes(sha(p));
    var q := FilesAfter(sha, run)[sha(p)];
    if FirstWith(sha, run, p) {
      var i :| 0 <= i < |run| && run[i] == p && forall j :: 0 <= j < i ==> sha(run[j]) != sha(p);
      var k :| 0 <= k < |run| && run[k] == q && forall j :: 0 <= j < k ==> sha(run[j]) != sha(q);
      assert i == k;
    }
  }

  /** Without a collision among the stored payloads everything within the bound reads back. */
  lemma ReadBack(sha: Bytes -> string, run: seq<Bytes>, p: Bytes, maxBytes: int)
    requires Digests(sha) && p in run && |p| <= maxBytes
    requires forall q :: q in run && sha(q) == sha(p) ==> q == p
    ensures Read(sha, FilesAfter(sha, run), ArtifactRef(sha(p)).value, sha(p), maxBytes) == Ok(p)
  {
    FilesHoldFirsts(sha, run, sha(p));
    var q := FilesAfter(sha, run)[sha(p)];
    assert q in run;
    ReadBackIff(sha, run, p, maxBytes);
  }

  /** Whatever has happened to the files, a read payload has the expected digest. */
  lemma ReadVerified(sha: Bytes -> string, files: Files, ref: string, expected: string, maxBytes: int)
    ensures var r := Read(sha, files, ref, expected, maxBytes);
            r.Ok? ==> sha(r.value) == expected && |r.value| <= maxBytes &&
                      (ref == LEGACY + expected || (IsDigest(expected) && ref == ArtifactRef(expected).value))
  {
    if Read(sha, files, ref, expected, maxBytes).Ok? { RefAcceptedIff(ref, expected); }
  }

  /** A payload is unavailable exactly when a reference to the expected digest is accepted but its file
      is missing or over the bound; every other failure is one of integrity. */
  lemma ReadFails(sha: Bytes -> string, files: Files, ref: string, expected: string, maxBytes: int)
    ensures var r := Read(sha, files, ref, expected, maxBytes);
            && (r == Err(Unavailable) <==>
                  && DigestFromRef(ref) == Ok(expected)
                  && (expected !in files || |files[expected]| > maxBytes))
            && (r.Err? && r != Err(Unavailable) ==> r == Err(Integrity))
            && (r == Err(Integrity) <==>
                  || DigestFromRef(ref) != Ok(expected)
                  || (expected in files && |files[expected]| <= maxBytes && sha(files[expected]) != expected))
  {
    RefAcceptedIff(ref, expected);
  }

  class ArtifactStore {
    const sha: Bytes -> string
    var files: Files

    constructor (sha: Bytes -> string)
      ensures this.sha == sha && files == FilesAfter(sha, [])
    {
      this.sha, files := sha, map[];
    }

    method StoreReplayArtifact(payload: Bytes) returns (r: Result<(string, string), Error>)
      requires Digests(sha)
      modifies this`files
      ensures files == Stored(sha, old(files), payload)
      ensures r.Ok? <==> sha(payload) in old(files) ==> sha(old(files)[sha(payload)]) == sha(payload)
      ensures r.Ok? ==> r.value == (ArtifactRef(sha(payload)).value, sha(payload))
      ensures r.Err? ==> r.error == Integrity
    {
      var digest := sha(payload);
      if digest in files {
        if sha(files[digest]) != digest { return Err(Integrity); }
      } else {
        files := files[digest := payload];
      }
      return Ok((ArtifactRef(digest).value, digest));
    }

    method ReadArtifact(ref: string, expected: string, maxBytes: int) returns (r: Result<Bytes, Error>)
      ensures r == Read(sha, files, ref, expected, maxBytes)
    {
      var d := DigestFromRef(ref);
      if d.Err? { return Err(d.error); }
      var digest := d.value;
      if digest != expected { return Err(Integrity); }
      if digest !in files { return Err(Unavailable); }
      if |files[digest]| > maxBytes { return Err(Unavailable); }
      if sha(files[digest]) != expected { return Err(Integrity); }
      return Ok(files[digest]);
    }
  }
}

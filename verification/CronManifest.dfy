/** Periodic job definitions and the canonical manifest an owner publishes. */
module CronManifest {
  import opened Prelude
  import opened KeySort
  import opened CanonicalJson

  type Name = string

  datatype MissedFirePolicy = Coalesce | CatchUp

  /** Everything of a periodic job but its name. */
  datatype Definition = Definition(
    cronExpr: string,
    timezone: string,
    kind: string,
    queue: string,
    args: Json,
    priority: int,
    maxAttempts: int,
    tags: seq<string>,
    metadata: Json,
    missedFirePolicy: MissedFirePolicy)

  /** What the builder starts from. */
  const EmptyDefinition := Definition("", "UTC", "", "default", Null, 2, 25, [], Object([]), Coalesce)

  datatype PeriodicJob = PeriodicJob(name: Name, definition: Definition)

  /** BLAKE3 of the canonical JSON, taken to be collision free: a digest is its
      preimage under a constructor. */
  datatype Digest = Digest(of: seq<PeriodicJob>)

  datatype PeriodicManifest = PeriodicManifest(value: seq<PeriodicJob>, hash: Digest)

  /** Unicode White_Space, as `char::is_whitespace`. */
  predicate IsWhitespace(c: char) {
    var n := c as int;
    9 <= n <= 13 || n == 32 || n == 0x85 || n == 0xA0 || n == 0x1680 || 0x2000 <= n <= 0x200A
    || n == 0x2028 || n == 0x2029 || n == 0x202F || n == 0x205F || n == 0x3000
  }

  /** `s.trim().is_empty()` */
  predicate Blank(s: string) {
    forall c :: c in s ==> IsWhitespace(c)
  }

  predicate ValidName(n: Name) {
    !Blank(n) && Utf8Length(n) <= 200
  }

  function NameOf(j: PeriodicJob): string {
    j.name
  }

  function CanonicalJob(j: PeriodicJob): PeriodicJob {
    j.(definition := j.definition.(args := Canonical(j.definition.args), metadata := Canonical(j.definition.metadata)))
  }

  /** The canonical JSON array: jobs by name, object members by key. */
  function CanonicalValue(jobs: seq<PeriodicJob>): (value: seq<PeriodicJob>) {
    var ordered := SortBy(jobs, NameOf);
    seq(|ordered|, i requires 0 <= i < |ordered| => CanonicalJob(ordered[i]))
  }

  /** The lists `canonical_manifest` accepts. */
  ghost predicate Acceptable(jobs: seq<PeriodicJob>) {
    DistinctKeys(jobs, NameOf) && forall i :: 0 <= i < |jobs| ==> ValidName(jobs[i].name)
  }

  /** `canonical_manifest`: refuses exactly the lists with an invalid or a
      repeated name, and otherwise returns the canonical value and its digest. */
  method PrepareManifest(jobs: seq<PeriodicJob>) returns (r: Result<PeriodicManifest, Name>)
    ensures r.Success? <==> Acceptable(jobs)
    ensures r.Success? ==> r.value == PeriodicManifest(CanonicalValue(jobs), Digest(CanonicalValue(jobs)))
    ensures r.Success? && ParsedJobs(jobs) ==> SameJobs(r.value.value, jobs)
    ensures r.Failure? ==> exists j :: j in jobs && j.name == r.error
  {
    var ordered := SortBy(jobs, NameOf);
    SortByKeeps(jobs, NameOf);
    SameElements(ordered, jobs);
    AcceptableUnderPermutation(jobs, ordered);
    var names: set<Name> := {};
    var i := 0;
    while i < |ordered|
      invariant 0 <= i <= |ordered|
      invariant names == set k | 0 <= k < i :: ordered[k].name
      invariant Acceptable(ordered[..i])
    {
      var job := ordered[i];
      assert job in jobs;
      if !ValidName(job.name) || job.name in names {
        if ValidName(job.name) {
          ghost var k :| 0 <= k < i && ordered[k].name == job.name;
          assert NameOf(ordered[k]) == NameOf(ordered[i]);
        }
        return Failure(job.name);
      }
      ExtendAcceptable(ordered, i);
      names := names + {job.name};
      i := i + 1;
    }
    assert ordered[..i] == ordered;
    if ParsedJobs(jobs) {
      CanonicalValueSame(jobs);
    }
    r := Success(PeriodicManifest(CanonicalValue(jobs), Digest(CanonicalValue(jobs))));
  }

  lemma AcceptableUnderPermutation(a: seq<PeriodicJob>, b: seq<PeriodicJob>)
    requires multiset(a) == multiset(b)
    ensures Acceptable(a) <==> Acceptable(b)
  {
    SameElements(a, b);
    if Acceptable(a) {
      DistinctUnderPermutation(a, b, NameOf);
      assert forall i :: 0 <= i < |b| ==> b[i] in a;
    }
    if Acceptable(b) {
      DistinctUnderPermutation(b, a, NameOf);
      assert forall i :: 0 <= i < |a| ==> a[i] in b;
    }
  }

  lemma ExtendAcceptable(s: seq<PeriodicJob>, i: nat)
    requires i < |s| && Acceptable(s[..i]) && ValidName(s[i].name)
    requires forall k :: 0 <= k < i ==> s[k].name != s[i].name
    ensures Acceptable(s[..i+1])
  {
    assert s[..i+1] == s[..i] + [s[i]];
  }

  /** The same job, its JSON columns written with members in any order. */
  ghost predicate SameJob(a: PeriodicJob, b: PeriodicJob) {
    && a.name == b.name
    && SameUpToKeyOrder(a.definition.args, b.definition.args)
    && SameUpToKeyOrder(a.definition.metadata, b.definition.metadata)
    && a.definition.(args := Null, metadata := Null) == b.definition.(args := Null, metadata := Null)
  }

  /** Two lists declare the same jobs, in any order. */
  ghost predicate SameJobs(a: seq<PeriodicJob>, b: seq<PeriodicJob>) {
    && (forall x :: x in a ==> exists y :: y in b && SameJob(x, y))
    && (forall y :: y in b ==> exists x :: x in a && SameJob(x, y))
  }

  ghost predicate ParsedJobs(jobs: seq<PeriodicJob>) {
    forall j :: j in jobs ==> WellFormed(j.definition.args) && WellFormed(j.definition.metadata)
  }

  lemma SameJobIffCanonical(a: PeriodicJob, b: PeriodicJob)
    requires ParsedJobs([a]) && ParsedJobs([b])
    ensures SameJob(a, b) <==> CanonicalJob(a) == CanonicalJob(b)
  {
    assert a in [a] && b in [b];
    CanonicalIffSame(a.definition.args, b.definition.args);
    CanonicalIffSame(a.definition.metadata, b.definition.metadata);
  }

  /** `v` is the canonical form of `ordered`, job by job. */
  ghost predicate Pointwise(v: seq<PeriodicJob>, ordered: seq<PeriodicJob>) {
    |v| == |ordered| && forall i :: 0 <= i < |v| ==> v[i] == CanonicalJob(ordered[i])
  }

  lemma PointwiseKeepsOrder(v: seq<PeriodicJob>, ordered: seq<PeriodicJob>)
    requires Pointwise(v, ordered) && SortedBy(ordered, NameOf) && DistinctKeys(ordered, NameOf)
    ensures SortedBy(v, NameOf) && DistinctKeys(v, NameOf)
  {
    assert forall i :: 0 <= i < |v| ==> NameOf(v[i]) == NameOf(ordered[i]);
  }

  lemma PointwiseHolds(v: seq<PeriodicJob>, ordered: seq<PeriodicJob>, c: PeriodicJob)
    requires Pointwise(v, ordered)
    ensures c in v <==> exists j :: j in ordered && CanonicalJob(j) == c
  {
    if c in v {
      var i :| 0 <= i < |v| && v[i] == c;
      assert ordered[i] in ordered;
    }
    if j :| j in ordered && CanonicalJob(j) == c {
      var i :| 0 <= i < |ordered| && ordered[i] == j;
      assert v[i] == c;
    }
  }

  /** The canonical value of an acceptable list: by name, distinct, and holding
      exactly the canonical form of every job. */
  lemma CanonicalValueHolds(jobs: seq<PeriodicJob>)
    requires DistinctKeys(jobs, NameOf)
    ensures var v := CanonicalValue(jobs);
            && SortedBy(v, NameOf) && DistinctKeys(v, NameOf)
            && forall c :: c in v <==> exists j :: j in jobs && CanonicalJob(j) == c
  {
    var ordered, v := SortBy(jobs, NameOf), CanonicalValue(jobs);
    SortByKeeps(jobs, NameOf);
    SameElements(ordered, jobs);
    DistinctUnderPermutation(jobs, ordered, NameOf);
    assert Pointwise(v, ordered);
    PointwiseKeepsOrder(v, ordered);
    forall c ensures c in v <==> exists j :: j in jobs && CanonicalJob(j) == c {
      PointwiseHolds(v, ordered, c);
    }
  }

  /** A canonical job is the job it was made from. */
  lemma CanonicalJobSame(j: PeriodicJob)
    requires WellFormed(j.definition.args) && WellFormed(j.definition.metadata)
    ensures SameJob(CanonicalJob(j), j)
  {
    CanonicalIdempotent(j.definition.args);
    CanonicalIdempotent(j.definition.metadata);
  }

  /** The canonical value declares the jobs it was made from. */
  lemma CanonicalValueSame(jobs: seq<PeriodicJob>)
    requires DistinctKeys(jobs, NameOf) && ParsedJobs(jobs)
    ensures SameJobs(CanonicalValue(jobs), jobs)
  {
    var v := CanonicalValue(jobs);
    CanonicalValueHolds(jobs);
    forall c | c in v ensures exists j :: j in jobs && SameJob(c, j) {
      var j :| j in jobs && CanonicalJob(j) == c;
      CanonicalJobSame(j);
    }
    forall j | j in jobs ensures exists c :: c in v && SameJob(c, j) {
      CanonicalJobSame(j);
      assert CanonicalJob(j) in v;
    }
  }

  /** Digests of two acceptable lists agree exactly when the lists declare the
      same jobs, whatever the order of the jobs and of their JSON members. */
  lemma DigestsAgreeIffSameJobs(a: seq<PeriodicJob>, b: seq<PeriodicJob>)
    requires Acceptable(a) && Acceptable(b) && ParsedJobs(a) && ParsedJobs(b)
    ensures Digest(CanonicalValue(a)) == Digest(CanonicalValue(b)) <==> SameJobs(a, b)
  {
    CanonicalValueHolds(a);
    CanonicalValueHolds(b);
    forall x, y | x in a && y in b ensures SameJob(x, y) <==> CanonicalJob(x) == CanonicalJob(y) {
      SameJobIffCanonical(x, y);
    }
    if CanonicalValue(a) == CanonicalValue(b) {
      forall x | x in a ensures exists y :: y in b && SameJob(x, y) {
        assert CanonicalJob(x) in CanonicalValue(b);
      }
      forall y | y in b ensures exists x :: x in a && SameJob(x, y) {
        assert CanonicalJob(y) in CanonicalValue(a);
      }
    }
    if SameJobs(a, b) {
      forall c ensures c in CanonicalValue(a) <==> c in CanonicalValue(b) {
      }
      SortedUnique(CanonicalValue(a), CanonicalValue(b), NameOf);
    }
  }

  /** The definitions a manifest asks for, by name. */
  function Wanted(manifest: seq<PeriodicJob>): (want: map<Name, Definition>)
    ensures forall n :: n in want <==> exists i :: 0 <= i < |manifest| && manifest[i].name == n
  {
    if manifest == [] then map[]
    else
      var rest, last := manifest[..|manifest|-1], manifest[|manifest|-1];
      assert forall i :: 0 <= i < |rest| ==> manifest[i] == rest[i];
      Wanted(rest)[last.name := last.definition]
  }

  lemma {:induction false} WantedHas(manifest: seq<PeriodicJob>, j: PeriodicJob)
    requires DistinctKeys(manifest, NameOf) && j in manifest
    ensures j.name in Wanted(manifest) && Wanted(manifest)[j.name] == j.definition
  {
    var rest, last := manifest[..|manifest|-1], manifest[|manifest|-1];
    assert manifest == rest + [last];
    if j in rest {
      WantedHas(rest, j);
      var i :| 0 <= i < |rest| && rest[i] == j;
      assert NameOf(manifest[i]) != NameOf(manifest[|manifest|-1]);
    }
  }
}

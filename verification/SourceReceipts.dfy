/** Binding of redacted source receipts to a reconciliation candidate. */
module SourceReceipts {
  import opened Orders
  import opened Sorting
  import Sums

  // ------------------------------------------------------------ canonical texts

  predicate Space(c: char) {
    c == ' ' || '\t' <= c <= '\r' || '\U{1c}' <= c <= '\U{1f}'
  }

  /** Non-empty, with no surrounding white space. */
  predicate CanonicalText(t: string) {
    t != "" && !Space(t[0]) && !Space(t[|t| - 1])
  }

  predicate Hex(t: string) {
    forall i :: 0 <= i < |t| ==> '0' <= t[i] <= '9' || 'a' <= t[i] <= 'f'
  }

  predicate CanonicalSha256(t: string) {
    CanonicalText(t) && |t| == 64 && Hex(t)
  }

  predicate CanonicalGitSha(t: string) {
    CanonicalText(t) && |t| == 40 && Hex(t)
  }

  predicate StartsWith(t: string, prefix: string) {
    |prefix| <= |t| && t[..|prefix|] == prefix
  }

  predicate EndsWith(t: string, suffix: string) {
    |suffix| <= |t| && t[|t| - |suffix|..] == suffix
  }

  /** owner/name, with exactly one slash. */
  predicate CanonicalRepository(t: string) {
    CanonicalText(t) && exists k :: 0 < k < |t| - 1 && t[k] == '/' && '/' !in t[..k] && '/' !in t[k + 1..]
  }

  predicate CanonicalWorkflowPath(t: string) {
    && CanonicalText(t) && StartsWith(t, ".github/workflows/")
    && (EndsWith(t, ".yml") || EndsWith(t, ".yaml"))
    && forall k :: 0 < k < |t| ==> !(t[k - 1] == '.' && t[k] == '.')
  }

  // ----------------------------------------------------------------- receipts

  datatype Provenance = Provenance(
    repository: string, workflowPath: string, runId: string, runAttempt: string, headSha: string,
    artifactId: string, artifactName: string, artifactSha: string, evidenceSha: string,
    service: string, revision: string, revisionCommit: string, deployRunId: string)
  {
    predicate Canonical() {
      && CanonicalRepository(repository) && CanonicalWorkflowPath(workflowPath)
      && CanonicalText(runId) && CanonicalText(runAttempt) && CanonicalGitSha(headSha)
      && CanonicalText(artifactId) && CanonicalText(artifactName)
      && CanonicalSha256(artifactSha) && CanonicalSha256(evidenceSha)
      && CanonicalText(service) && CanonicalText(revision) && CanonicalGitSha(revisionCommit)
      && CanonicalText(deployRunId)
    }
  }

  datatype Expectation = Expectation(profile: string, workflowRef: string, conclusion: string, source: Provenance)

  /** exactFields says that the mapping has the record's fields and no other. */
  datatype Receipt = Receipt(exactFields: bool, schema: string, source: Provenance)

  const RECORD_SCHEMA := "ibkr_reconciliation_source_receipt_record.v1"
  const MAIN_REF := "refs/heads/main"

  predicate Designated(e: Expectation) {
    && e.workflowRef == MAIN_REF && e.conclusion == "success"
    && CanonicalText(e.profile) && e.source.Canonical()
    && e.source.artifactName == "ibkr-reconciliation-" + e.profile + "-" + e.source.runId
  }

  /** What all designated receipts share. */
  datatype Shared = Shared(
    profile: string, repository: string, workflowPath: string, headSha: string,
    service: string, revision: string, revisionCommit: string)

  function SharedOf(e: Expectation): Shared {
    Shared(e.profile, e.source.repository, e.source.workflowPath, e.source.headSha,
           e.source.service, e.source.revision, e.source.revisionCommit)
  }

  predicate AllDesignated(es: seq<Expectation>) {
    forall i :: 0 <= i < |es| ==> Designated(es[i])
  }

  /** Artifact ids and run ids are each unique, and the shared fields are shared. */
  predicate ValidDesignation(es: seq<Expectation>) {
    && es != [] && AllDesignated(es)
    && Differ(es, (e: Expectation) => e.source.artifactId)
    && Differ(es, (e: Expectation) => e.source.runId)
    && Agree(es, SharedOf)
  }

  predicate Differ<V, W(==)>(xs: seq<V>, f: V -> W) {
    forall i, j :: 0 <= i < j < |xs| ==> f(xs[i]) != f(xs[j])
  }

  predicate Agree<V, W(==)>(xs: seq<V>, f: V -> W) {
    forall i :: 0 <= i < |xs| ==> f(xs[i]) == f(xs[0])
  }

  /** The index holds the listed values by their identifier. */
  predicate Indexes<V(==)>(index: map<string, V>, xs: seq<V>, id: V -> string) {
    && (forall i :: 0 <= i < |xs| ==> id(xs[i]) in index && index[id(xs[i])] == xs[i])
    && (forall key :: key in index ==> index[key] in xs && id(index[key]) == key)
  }

  ghost function Image<K, V>(s: set<K>, f: K -> V): set<V> {
    set x | x in s :: f(x)
  }

  lemma {:induction false} ImageSize<K(!new), V(!new)>(s: set<K>, f: K -> V)
    ensures |Image(s, f)| <= |s|
    ensures |Image(s, f)| == |s| <==> forall x, y :: x in s && y in s && f(x) == f(y) ==> x == y
    decreases |s|
  {
    if s != {} {
      var x :| x in s;
      var rest := s - {x};
      ImageSize(rest, f);
      var image, before := Image(s, f), Image(rest, f);
      assert image == before + {f(x)};
      if f(x) in before {
        assert image == before;
        var y :| y in rest && f(y) == f(x);
        assert y in s && x in s && y != x;
      } else {
        assert |image| == |before| + 1;
        forall a, b | a in s && b in s && f(a) == f(b) && (forall c, d :: c in rest && d in rest && f(c) == f(d) ==> c == d)
          ensures a == b
        {
          assert a in rest ==> f(a) in before;
          assert b in rest ==> f(b) in before;
        }
      }
    }
  }

  lemma SingleImage<K(!new), V(!new)>(s: set<K>, f: K -> V)
    requires s != {}
    ensures |Image(s, f)| == 1 <==> forall x, y :: x in s && y in s ==> f(x) == f(y)
  {
    var image := Image(s, f);
    var x :| x in s;
    assert f(x) in image;
    if |image| == 1 {
      assert image == {f(x)} by {
        assert |image - {f(x)}| == 0;
      }
      forall y | y in s ensures f(y) == f(x) {
        assert f(y) in image;
      }
    }
    if forall x, y :: x in s && y in s ==> f(x) == f(y) {
      assert image == {f(x)};
    }
  }

  function ValuesOf<V, W>(index: map<string, V>, f: V -> W): set<W> {
    set key | key in index.Keys :: f(index[key])
  }

  lemma IndexDiffer<V(!new), W(!new)>(index: map<string, V>, xs: seq<V>, id: V -> string, f: V -> W, default: W)
    requires Indexes(index, xs, id) && Differ(xs, id)
    ensures |ValuesOf(index, f)| == |index| <==> Differ(xs, f)
  {
    var at: string -> W := (key: string) => if key in index then f(index[key]) else default;
    ImageSize(index.Keys, at);
    assert ValuesOf(index, f) == Image(index.Keys, at);
    if |ValuesOf(index, f)| == |index| {
      forall i, j | 0 <= i < j < |xs| ensures f(xs[i]) != f(xs[j]) {
        assert at(id(xs[i])) == f(xs[i]) && at(id(xs[j])) == f(xs[j]);
      }
    }
    if Differ(xs, f) {
      forall x, y | x in index.Keys && y in index.Keys && at(x) == at(y) ensures x == y {
        var i :| 0 <= i < |xs| && xs[i] == index[x];
        var j :| 0 <= j < |xs| && xs[j] == index[y];
        assert f(xs[i]) == f(xs[j]);
      }
    }
  }

  lemma IndexAgree<V(!new), W(!new)>(index: map<string, V>, xs: seq<V>, id: V -> string, f: V -> W, default: W)
    requires Indexes(index, xs, id) && xs != []
    ensures |ValuesOf(index, f)| == 1 <==> Agree(xs, f)
  {
    var at: string -> W := (key: string) => if key in index then f(index[key]) else default;
    assert id(xs[0]) in index.Keys;
    SingleImage(index.Keys, at);
    assert ValuesOf(index, f) == Image(index.Keys, at);
    if |ValuesOf(index, f)| == 1 {
      forall i | 0 <= i < |xs| ensures f(xs[i]) == f(xs[0]) {
        assert at(id(xs[i])) == f(xs[i]) && at(id(xs[0])) == f(xs[0]);
      }
    }
    if Agree(xs, f) {
      forall x, y | x in index.Keys && y in index.Keys ensures at(x) == at(y) {
        var i :| 0 <= i < |xs| && xs[i] == index[x];
        var j :| 0 <= j < |xs| && xs[j] == index[y];
      }
    }
  }

  lemma IndexNext<V(!new)>(index: map<string, V>, xs: seq<V>, id: V -> string, x: V)
    requires Indexes(index, xs, id) && Differ(xs, id)
    ensures id(x) in index <==> !Differ(xs + [x], id)
    ensures id(x) !in index ==> Indexes(index[id(x) := x], xs + [x], id)
  {
    if id(x) in index {
      var i :| 0 <= i < |xs| && xs[i] == index[id(x)];
      assert (xs + [x])[i] == xs[i] && (xs + [x])[|xs|] == x;
    }
  }

  lemma NotDiffer<V(!new), W>(xs: seq<V>, f: V -> W, n: nat)
    requires n <= |xs| && !Differ(xs[..n], f)
    ensures !Differ(xs, f)
  {
    var i, j :| 0 <= i < j < n && f(xs[i]) == f(xs[j]);
  }

  /** The designated expectations by artifact id; None is a raised error. The seven one-value checks of
      the shared fields are one check on the tuple of the fields. */
  method NormalizeExpectations(es: seq<Expectation>) returns (index: Option<map<string, Expectation>>)
    ensures index.Some? <==> ValidDesignation(es)
    ensures index.Some? ==> Indexes(index.value, es, (e: Expectation) => e.source.artifactId)
  {
    if es == [] {
      return None;
    }
    var id: Expectation -> string := (e: Expectation) => e.source.artifactId;
    var run: Expectation -> string := (e: Expectation) => e.source.runId;
    var byArtifact := IndexAll(es, (e: Expectation) => Designated(e), id);
    if byArtifact == None {
      return None;
    }
    IndexDiffer(byArtifact.value, es, id, run, "");
    if |ValuesOf(byArtifact.value, run)| != |byArtifact.value| {
      return None;
    }
    IndexAgree(byArtifact.value, es, id, SharedOf, SharedOf(es[0]));
    if |ValuesOf(byArtifact.value, SharedOf)| != 1 {
      return None;
    }
    index := byArtifact;
  }

  /** Fills the dictionary, refusing an unfit value or a repeated identifier. */
  method IndexAll<V(==, !new)>(xs: seq<V>, fit: V -> bool, id: V -> string) returns (index: Option<map<string, V>>)
    ensures index.Some? <==> (forall i :: 0 <= i < |xs| ==> fit(xs[i])) && Differ(xs, id)
    ensures index.Some? ==> Indexes(index.value, xs, id)
  {
    var filled: map<string, V> := map[];
    for i := 0 to |xs|
      invariant Indexes(filled, xs[..i], id) && Differ(xs[..i], id)
      invariant forall k :: 0 <= k < i ==> fit(xs[k])
    {
      var x := xs[i];
      assert xs[..i + 1] == xs[..i] + [x];
      if !fit(x) {
        return None;
      }
      IndexNext(filled, xs[..i], id, x);
      if id(x) in filled {
        NotDiffer(xs, id, i + 1);
        return None;
      }
      filled := filled[id(x) := x];
    }
    assert xs[..|xs|] == xs;
    index := Some(filled);
  }

  // ------------------------------------------------------- records and their text

  predicate WellFormed(r: Receipt) {
    r.exactFields && r.schema == RECORD_SCHEMA && r.source.Canonical()
  }

  function KeyOf(p: Provenance): (string, string) {
    (p.artifactId, p.runId)
  }

  function Sources(rs: seq<Receipt>): seq<Provenance> {
    seq(|rs|, i requires 0 <= i < |rs| => rs[i].source)
  }

  function Expected(es: seq<Expectation>): seq<Provenance> {
    seq(|es|, i requires 0 <= i < |es| => es[i].source)
  }

  predicate AllWellFormed(rs: seq<Receipt>) {
    forall i :: 0 <= i < |rs| ==> WellFormed(rs[i])
  }

  function Ids(ps: seq<Provenance>): set<string> {
    set p | p in ps :: p.artifactId
  }

  /** Different key pairs, the designated artifact ids, and each record equal to the source designated for
      its artifact. */
  predicate SameSources(ps: seq<Provenance>, qs: seq<Provenance>) {
    && Differ(ps, KeyOf)
    && Ids(ps) == Ids(qs)
    && forall p, q :: p in ps && q in qs && p.artifactId == q.artifactId ==> p == q
  }

  /** The checks of the canonical serialisation, in the order they are made. */
  predicate Accepted(rs: seq<Receipt>, profile: string, es: seq<Expectation>) {
    && CanonicalText(profile)
    && ValidDesignation(es)
    && AllWellFormed(rs) && rs != []
    && SameSources(Sources(rs), Expected(es))
    && forall k :: 0 <= k < |es| ==> es[k].profile == profile
  }

  /** The records in sorted order, as they are written; None is a raised error. The text itself is
      json of this list. */
  function Canonical(rs: seq<Receipt>, profile: string, es: seq<Expectation>): Option<seq<Provenance>> {
    if Accepted(rs, profile, es) then Some(Sort(ByKey(KeyOf), Sources(rs))) else None
  }

  lemma DesignationDistinct(es: seq<Expectation>)
    requires ValidDesignation(es)
    ensures Sums.Distinct(Expected(es))
    ensures forall p, q :: p in Expected(es) && q in Expected(es) && p.artifactId == q.artifactId ==> p == q
  {
    var id: Expectation -> string := (e: Expectation) => e.source.artifactId;
    assert forall i, j :: 0 <= i < j < |es| ==> id(es[i]) != id(es[j]);
  }

  lemma SameSourcesCover(ps: seq<Provenance>, qs: seq<Provenance>)
    requires SameSources(ps, qs)
    ensures Sums.Distinct(ps) && forall p :: p in ps <==> p in qs
  {
    forall p | p in ps ensures p in qs {
      assert p.artifactId in Ids(ps);
      var q :| q in qs && q.artifactId == p.artifactId;
    }
    forall q | q in qs ensures q in ps {
      assert q.artifactId in Ids(qs);
      var p :| p in ps && p.artifactId == q.artifactId;
    }
    forall i, j | 0 <= i < j < |ps| ensures ps[i] != ps[j] {
      assert KeyOf(ps[i]) != KeyOf(ps[j]);
    }
  }

  /** When the designated artifact ids differ, the record checks accept exactly the permutations of the
      designated sources: a bijection. */
  lemma SameSourcesExactly(ps: seq<Provenance>, qs: seq<Provenance>)
    requires Sums.Distinct(qs)
    requires forall p, q :: p in qs && q in qs && p.artifactId == q.artifactId ==> p == q
    ensures SameSources(ps, qs) <==> multiset(ps) == multiset(qs)
  {
    if SameSources(ps, qs) {
      SameSourcesCover(ps, qs);
      Sums.SameElementsSameMultiset(ps, qs);
    }
    if multiset(ps) == multiset(qs) {
      Sums.PermutationDistinct(ps, qs);
      forall p ensures p in ps <==> p in qs {
        SameElements(ps, qs, p);
      }
      assert Ids(ps) == Ids(qs);
      forall i, j | 0 <= i < j < |ps| ensures KeyOf(ps[i]) != KeyOf(ps[j]) {
        assert ps[i] in qs && ps[j] in qs && ps[i] != ps[j];
      }
    }
  }

  /** Records are accepted exactly when the designation is valid and for this profile, every record is
      well formed, and the records are the designated sources, each exactly once, in some order. */
  lemma AcceptedExactly(rs: seq<Receipt>, profile: string, es: seq<Expectation>)
    ensures Accepted(rs, profile, es)
       <==> && CanonicalText(profile) && ValidDesignation(es) && es[0].profile == profile
            && AllWellFormed(rs)
            && multiset(Sources(rs)) == multiset(Expected(es))
  {
    if ValidDesignation(es) {
      DesignationDistinct(es);
      SameSourcesExactly(Sources(rs), Expected(es));
      assert |multiset(Sources(rs))| == |rs| && |multiset(Expected(es))| == |es|;
      assert forall k :: 0 <= k < |es| ==> SharedOf(es[k]) == SharedOf(es[0]);
    }
  }

  /** The accepted text is a function of the expectations alone. */
  lemma CanonicalIsDesignated(rs: seq<Receipt>, profile: string, es: seq<Expectation>)
    requires Accepted(rs, profile, es)
    ensures Canonical(rs, profile, es) == Some(Sort(ByKey(KeyOf), Expected(es)))
  {
    AcceptedExactly(rs, profile, es);
    DesignationDistinct(es);
    ByKeyIsTotalPreorder(KeyOf);
    ByKeySeparates(KeyOf, Expected(es));
    SortIgnoresOrder(ByKey(KeyOf), Expected(es), Sources(rs));
  }

  lemma DifferPermutes<V(!new), W>(xs: seq<V>, ys: seq<V>, f: V -> W)
    requires multiset(xs) == multiset(ys) && Differ(xs, f)
    ensures Differ(ys, f)
  {
    assert Sums.Distinct(xs) by {
      forall i, j | 0 <= i < j < |xs| ensures xs[i] != xs[j] {
        assert f(xs[i]) != f(xs[j]);
      }
    }
    Sums.PermutationDistinct(ys, xs);
    forall i, j | 0 <= i < j < |ys| ensures f(ys[i]) != f(ys[j]) {
      SameElements(xs, ys, ys[i]);
      SameElements(xs, ys, ys[j]);
      var k :| 0 <= k < |xs| && xs[k] == ys[i];
      var l :| 0 <= l < |xs| && xs[l] == ys[j];
    }
  }

  lemma AgreePermutes<V(!new), W>(xs: seq<V>, ys: seq<V>, f: V -> W)
    requires multiset(xs) == multiset(ys) && Agree(xs, f)
    ensures Agree(ys, f)
  {
    forall i | 0 <= i < |ys| ensures f(ys[i]) == f(ys[0]) {
      SameElements(xs, ys, ys[i]);
      SameElements(xs, ys, ys[0]);
      var k :| 0 <= k < |xs| && xs[k] == ys[i];
      var l :| 0 <= l < |xs| && xs[l] == ys[0];
    }
  }

  predicate AllFit<V>(xs: seq<V>, fit: V -> bool) {
    forall i :: 0 <= i < |xs| ==> fit(xs[i])
  }

  lemma AllFitPermutes<V(!new)>(xs: seq<V>, ys: seq<V>, fit: V -> bool)
    requires multiset(xs) == multiset(ys) && AllFit(xs, fit)
    ensures AllFit(ys, fit)
  {
    forall i | 0 <= i < |ys| ensures fit(ys[i]) {
      SameElements(xs, ys, ys[i]);
      var k :| 0 <= k < |xs| && xs[k] == ys[i];
    }
  }

  lemma DesignationPermutes(es: seq<Expectation>, es': seq<Expectation>)
    requires multiset(es) == multiset(es') && ValidDesignation(es)
    ensures ValidDesignation(es') && es'[0].profile == es[0].profile
  {
    assert |multiset(es)| == |es| && |multiset(es')| == |es'|;
    DifferPermutes(es, es', (e: Expectation) => e.source.artifactId);
    DifferPermutes(es, es', (e: Expectation) => e.source.runId);
    AgreePermutes(es, es', SharedOf);
    AllFitPermutes(es, es', (e: Expectation) => Designated(e));
    assert AllDesignated(es') by {
      assert forall i :: 0 <= i < |es'| ==> ((e: Expectation) => Designated(e))(es'[i]);
    }
    SameElements(es, es', es'[0]);
    var k :| 0 <= k < |es| && es[k] == es'[0];
    assert SharedOf(es[k]) == SharedOf(es[0]);
  }

  lemma {:induction false} ExpectedPermutes(es: seq<Expectation>, es': seq<Expectation>)
    requires multiset(es) == multiset(es')
    ensures multiset(Expected(es)) == multiset(Expected(es'))
  {
    if es == [] {
      assert |multiset(es')| == 0;
    } else {
      var i := Sums.TakeOut(es, es');
      ExpectedPermutes(es[1..], es'[..i] + es'[i + 1..]);
      assert Expected(es) == [es[0].source] + Expected(es[1..]);
      assert Expected(es') == Expected(es'[..i]) + ([es'[i].source] + Expected(es'[i + 1..]));
      assert Expected(es'[..i] + es'[i + 1..]) == Expected(es'[..i]) + Expected(es'[i + 1..]);
    }
  }

  lemma WellFormedPermutes(rs: seq<Receipt>, rs': seq<Receipt>)
    requires multiset(rs) == multiset(rs') && AllWellFormed(rs)
    ensures AllWellFormed(rs')
  {
    AllFitPermutes(rs, rs', (r: Receipt) => WellFormed(r));
    assert forall i :: 0 <= i < |rs'| ==> ((r: Receipt) => WellFormed(r))(rs'[i]);
  }

  lemma AcceptedPermutes(rs: seq<Receipt>, rs': seq<Receipt>, profile: string, es: seq<Expectation>, es': seq<Expectation>)
    requires multiset(rs) == multiset(rs') && multiset(es) == multiset(es') && Accepted(rs, profile, es)
    ensures Accepted(rs', profile, es')
  {
    AcceptedExactly(rs, profile, es);
    DesignationPermutes(es, es');
    WellFormedPermutes(rs, rs');
    SourcesPermute(rs, rs');
    ExpectedPermutes(es, es');
    AcceptedExactly(rs', profile, es');
  }

  /** One run off the main branch, or not successful, or with another artifact name, refuses the whole batch. */
  lemma OneBadRunRefusesAll(rs: seq<Receipt>, profile: string, es: seq<Expectation>, i: nat)
    requires i < |es|
    requires es[i].workflowRef != "refs/heads/main" || es[i].conclusion != "success"
             || es[i].source.artifactName != "ibkr-reconciliation-" + es[i].profile + "-" + es[i].source.runId
    ensures Canonical(rs, profile, es) == None
  {
    assert !Designated(es[i]);
  }

  /** So does one record with other fields, another schema, or a digest that is not lower-case hexadecimal of its
      length. */
  lemma OneBadRecordRefusesAll(rs: seq<Receipt>, profile: string, es: seq<Expectation>, i: nat)
    requires i < |rs|
    requires var r := rs[i];
             || !r.exactFields || r.schema != "ibkr_reconciliation_source_receipt_record.v1"
             || !Digest(r.source.headSha, 40) || !Digest(r.source.revisionCommit, 40)
             || !Digest(r.source.artifactSha, 64) || !Digest(r.source.evidenceSha, 64)
    ensures Canonical(rs, profile, es) == None
  {
    if rs[i].source.Canonical() {
      DigestsAreHex(rs[i].source);
    }
    assert !WellFormed(rs[i]);
  }

  lemma DigestsAreHex(p: Provenance)
    requires p.Canonical()
    ensures Digest(p.headSha, 40) && Digest(p.revisionCommit, 40) && Digest(p.artifactSha, 64) && Digest(p.evidenceSha, 64)
  {
    HexDigits(p.headSha);
    HexDigits(p.revisionCommit);
    HexDigits(p.artifactSha);
    HexDigits(p.evidenceSha);
  }

  lemma HexDigits(t: string)
    requires Hex(t)
    ensures forall i :: 0 <= i < |t| ==> t[i] in "0123456789abcdef"
  {
    forall i | 0 <= i < |t| ensures t[i] in "0123456789abcdef" {
      HexDigit(t[i]);
    }
  }

  lemma HexDigit(c: char)
    requires '0' <= c <= '9' || 'a' <= c <= 'f'
    ensures c in "0123456789abcdef"
  {
    var digits := "0123456789abcdef";
    var k := if c <= '9' then c as int - '0' as int else c as int - 'a' as int + 10;
    assert digits[k] == c;
  }

  /** length lower-case hexadecimal digits. */
  predicate Digest(t: string, length: nat) {
    |t| == length && forall i :: 0 <= i < |t| ==> t[i] in "0123456789abcdef"
  }

  /** Nothing, or something with a blank at either end. */
  predicate Ragged(t: string) {
    t == "" || t[0] == ' ' || t[|t| - 1] == ' '
  }

  /** And so does one record whose repository is no owner/name, whose workflow lies elsewhere or climbs, or whose ids
      are empty or ragged. */
  lemma OneStrayRecordRefusesAll(rs: seq<Receipt>, profile: string, es: seq<Expectation>, i: nat, k: nat)
    requires i < |rs|
    requires var p := rs[i].source;
             || '/' !in p.repository || !(".github/workflows/" <= p.workflowPath)
             || (k + 2 <= |p.workflowPath| && p.workflowPath[k..k + 2] == "..")
             || Ragged(p.artifactId) || Ragged(p.runId) || Ragged(p.runAttempt) || Ragged(p.artifactName)
             || Ragged(p.service) || Ragged(p.revision) || Ragged(p.deployRunId)
    ensures Canonical(rs, profile, es) == None
  {
    if rs[i].source.Canonical() {
      StraysNowhere(rs[i].source, k);
    }
    assert !WellFormed(rs[i]);
  }

  lemma StraysNowhere(p: Provenance, k: nat)
    requires p.Canonical()
    ensures '/' in p.repository && ".github/workflows/" <= p.workflowPath
    ensures k + 2 <= |p.workflowPath| ==> p.workflowPath[k..k + 2] != ".."
    ensures !Ragged(p.artifactId) && !Ragged(p.runId) && !Ragged(p.runAttempt) && !Ragged(p.artifactName)
    ensures !Ragged(p.service) && !Ragged(p.revision) && !Ragged(p.deployRunId)
  {
    HasASlash(p.repository);
    StaysInWorkflows(p.workflowPath, k);
    CanonicalIsNotRagged(p.artifactId);
    CanonicalIsNotRagged(p.runId);
    CanonicalIsNotRagged(p.runAttempt);
    CanonicalIsNotRagged(p.artifactName);
    CanonicalIsNotRagged(p.service);
    CanonicalIsNotRagged(p.revision);
    CanonicalIsNotRagged(p.deployRunId);
  }

  lemma CanonicalIsNotRagged(t: string)
    requires CanonicalText(t)
    ensures !Ragged(t)
  {
  }

  lemma HasASlash(t: string)
    requires CanonicalRepository(t)
    ensures '/' in t
  {
  }

  lemma StaysInWorkflows(path: string, k: nat)
    requires CanonicalWorkflowPath(path)
    ensures ".github/workflows/" <= path
    ensures k + 2 <= |path| ==> path[k..k + 2] != ".."
  {
    if k + 2 <= |path| {
      var part := path[k..k + 2];
      assert part[0] == path[k] && part[1] == path[k + 1];
      assert k + 1 > 0;
    }
  }

  /** All designated runs are of one profile, repository, workflow, head, service and revision. */
  lemma DesignationIsOfOneDeployment(es: seq<Expectation>, i: nat, j: nat)
    requires ValidDesignation(es) && i < |es| && j < |es|
    ensures es[i].profile == es[j].profile
    ensures var p, q := es[i].source, es[j].source;
            && p.repository == q.repository && p.workflowPath == q.workflowPath && p.headSha == q.headSha
            && p.service == q.service && p.revision == q.revision && p.revisionCommit == q.revisionCommit
            && (i != j ==> p.artifactId != q.artifactId && p.runId != q.runId)
  {
    assert SharedOf(es[i]) == SharedOf(es[0]) == SharedOf(es[j]);
    var id: Expectation -> string := (e: Expectation) => e.source.artifactId;
    var run: Expectation -> string := (e: Expectation) => e.source.runId;
    assert Differ(es, id) && Differ(es, run);
    if i < j {
      assert id(es[i]) != id(es[j]) && run(es[i]) != run(es[j]);
    } else if j < i {
      assert id(es[j]) != id(es[i]) && run(es[j]) != run(es[i]);
    }
  }

  lemma OrderedIds(list: seq<Provenance>, i: nat, j: nat)
    requires Ordered(ByKey(KeyOf), list) && i < j < |list|
    ensures TextLe(list[i].artifactId, list[j].artifactId)
  {
    assert ByKey(KeyOf)(list[i], list[j]);
    assert PairLe(KeyOf(list[i]), KeyOf(list[j]));
    assert KeyOf(list[i]).0 == list[i].artifactId && KeyOf(list[j]).0 == list[j].artifactId;
  }

  lemma DifferentIds(list: seq<Provenance>, designated: seq<Provenance>, i: nat, j: nat)
    requires multiset(list) == multiset(designated) && Sums.Distinct(designated) && i < j < |list|
    requires forall p, q :: p in designated && q in designated && p.artifactId == q.artifactId ==> p == q
    ensures list[i].artifactId != list[j].artifactId
  {
    Sums.PermutationDistinct(list, designated);
    SameElements(list, designated, list[i]);
    SameElements(list, designated, list[j]);
  }

  /** The canonical list is in order of the artifact ids, which all differ. */
  lemma CanonicalIsOrdered(rs: seq<Receipt>, profile: string, es: seq<Expectation>, i: nat, j: nat)
    requires Canonical(rs, profile, es).Some? && i < j < |Canonical(rs, profile, es).value|
    ensures var list := Canonical(rs, profile, es).value;
            TextLe(list[i].artifactId, list[j].artifactId) && list[i].artifactId != list[j].artifactId
  {
    ByKeyIsTotalPreorder(KeyOf);
    SortSorts(ByKey(KeyOf), Sources(rs));
    AcceptedExactly(rs, profile, es);
    DesignationDistinct(es);
    OrderedIds(Canonical(rs, profile, es).value, i, j);
    DifferentIds(Canonical(rs, profile, es).value, Expected(es), i, j);
  }

  /** Rearranging the records, and the expectations, changes neither acceptance nor text. */
  lemma CanonicalIgnoresOrder(rs: seq<Receipt>, rs': seq<Receipt>, profile: string, es: seq<Expectation>, es': seq<Expectation>)
    requires multiset(rs) == multiset(rs') && multiset(es) == multiset(es')
    ensures Canonical(rs, profile, es) == Canonical(rs', profile, es')
  {
    if Accepted(rs, profile, es) {
      AcceptedPermutes(rs, rs', profile, es, es');
      CanonicalIsDesignated(rs, profile, es);
      CanonicalIsDesignated(rs', profile, es');
      DesignationDistinct(es);
      ExpectedPermutes(es, es');
      ByKeyIsTotalPreorder(KeyOf);
      ByKeySeparates(KeyOf, Expected(es));
      SortIgnoresOrder(ByKey(KeyOf), Expected(es), Expected(es'));
    } else if Accepted(rs', profile, es') {
      AcceptedPermutes(rs', rs, profile, es', es);
    }
  }

  lemma {:induction false} SourcesPermute(rs: seq<Receipt>, rs': seq<Receipt>)
    requires multiset(rs) == multiset(rs')
    ensures multiset(Sources(rs)) == multiset(Sources(rs'))
  {
    if rs == [] {
      assert |multiset(rs')| == 0;
    } else {
      var i := Sums.TakeOut(rs, rs');
      SourcesPermute(rs[1..], rs'[..i] + rs'[i + 1..]);
      assert Sources(rs) == [rs[0].source] + Sources(rs[1..]);
      assert Sources(rs') == Sources(rs'[..i]) + ([rs'[i].source] + Sources(rs'[i + 1..]));
      assert Sources(rs'[..i] + rs'[i + 1..]) == Sources(rs'[..i]) + Sources(rs'[i + 1..]);
    }
  }

  // --------------------------------------------------------------- candidates

  datatype Schema = V1 | V2 | OtherSchema(name: string)

  /** body stands for the fields the upgrade does not touch. */
  datatype Candidate = Candidate(
    schema: Schema, profile: string, evidence: seq<string>, body: string,
    receiptsSha: Option<string>, candidateSha: string)

  /** The text form of a record list, the digest of a text, the candidate's own digest, and the shared
      constructor's checks on its fields. */
  datatype Library = Library(
    json: seq<Provenance> -> string, sha: string -> string,
    seal: Candidate -> string, structure: Candidate -> bool)

  const ZEROS := seq(64, i => '0')

  /** A candidate the shared constructor accepts. */
  predicate Constructible(lib: Library, c: Candidate) {
    lib.structure(c) && c.candidateSha == lib.seal(c.(candidateSha := ZEROS))
  }

  function Root(lib: Library, rs: seq<Receipt>, profile: string, es: seq<Expectation>): Option<string> {
    match Canonical(rs, profile, es)
    case Some(list) => Some(lib.sha(lib.json(list)))
    case None => None
  }

  function Members(rs: seq<Receipt>): seq<string> {
    seq(|rs|, i requires 0 <= i < |rs| => rs[i].source.evidenceSha)
  }

  predicate MembersMatch(c: Candidate, rs: seq<Receipt>) {
    Sort(TextLe, Members(rs)) == Sort(TextLe, c.evidence)
  }

  /** The sorted lists agree exactly when the evidence digests are the records' own, with multiplicity. */
  lemma MembersMatchExactly(c: Candidate, rs: seq<Receipt>)
    ensures MembersMatch(c, rs) <==> multiset(Members(rs)) == multiset(c.evidence)
  {
    TextLeIsOrder(Members(rs));
    SortedAgree(TextLe, Members(rs), c.evidence);
  }

  /** The upgraded candidate: two fields set, then sealed. */
  function Upgraded(lib: Library, c: Candidate, root: string): Candidate {
    var payload := c.(schema := V2, receiptsSha := Some(root), candidateSha := ZEROS);
    payload.(candidateSha := lib.seal(payload))
  }

  /** None is a raised error. */
  function BuildV2(lib: Library, c: Candidate, rs: seq<Receipt>, es: seq<Expectation>): Option<Candidate> {
    if c.schema != V1 then None
    else
      match Root(lib, rs, c.profile, es)
      case None => None
      case Some(root) =>
        if MembersMatch(c, rs) && Constructible(lib, Upgraded(lib, c, root)) then Some(Upgraded(lib, c, root)) else None
  }

  /** The builder sets the payload's keys one after the other; the seal is taken over a zeroed seal. */
  method BuildCandidate(lib: Library, c: Candidate, rs: seq<Receipt>, es: seq<Expectation>) returns (built: Option<Candidate>)
    ensures built == BuildV2(lib, c, rs, es)
  {
    if c.schema != V1 {
      return None;
    }
    var root := Root(lib, rs, c.profile, es);
    if root == None || !MembersMatch(c, rs) {
      return None;
    }
    var payload := c;
    payload := payload.(schema := V2);
    payload := payload.(receiptsSha := root);
    payload := payload.(candidateSha := ZEROS);
    payload := payload.(candidateSha := lib.seal(payload));
    built := if Constructible(lib, payload) then Some(payload) else None;
  }

  function Validate(lib: Library, c: Candidate, rs: seq<Receipt>, es: seq<Expectation>): Option<Candidate> {
    if !Constructible(lib, c) || c.schema != V2 then None
    else
      match Root(lib, rs, c.profile, es)
      case None => None
      case Some(root) => if MembersMatch(c, rs) && c.receiptsSha == Some(root) then Some(c) else None
  }

  /** A candidate is upgraded exactly when it is a v1 one, the records are accepted for its profile, its
      evidence digests are the records' own with multiplicity, and the shared constructor accepts the result:
      the root is the digest of the designated sources in order, the seal that of the candidate under zeros. */
  lemma BuildsExactly(lib: Library, c: Candidate, rs: seq<Receipt>, es: seq<Expectation>)
    ensures var root := lib.sha(lib.json(Sort(ByKey(KeyOf), Expected(es))));
            var open := c.(schema := V2, receiptsSha := Some(root), candidateSha := ZEROS);
            var v2 := open.(candidateSha := lib.seal(open));
            BuildV2(lib, c, rs, es)
            == if && c.schema == V1 && Accepted(rs, c.profile, es)
                  && multiset(Members(rs)) == multiset(c.evidence) && lib.structure(v2)
               then Some(v2) else None
  {
    MembersMatchExactly(c, rs);
    if Accepted(rs, c.profile, es) {
      CanonicalIsDesignated(rs, c.profile, es);
    }
  }

  /** A candidate validates exactly when it is a sealed v2 one, the records are accepted for its profile, its
      evidence digests are the records' own with multiplicity, and its root is that of the designated sources. */
  lemma ValidatesExactly(lib: Library, c: Candidate, rs: seq<Receipt>, es: seq<Expectation>)
    ensures Validate(lib, c, rs, es)
         == if && c.schema == V2 && lib.structure(c) && c.candidateSha == lib.seal(c.(candidateSha := ZEROS))
               && Accepted(rs, c.profile, es) && multiset(Members(rs)) == multiset(c.evidence)
               && c.receiptsSha == Some(lib.sha(lib.json(Sort(ByKey(KeyOf), Expected(es)))))
            then Some(c) else None
  {
    MembersMatchExactly(c, rs);
    if Accepted(rs, c.profile, es) {
      CanonicalIsDesignated(rs, c.profile, es);
    }
  }

  lemma MembersPermute(c: Candidate, rs: seq<Receipt>, rs': seq<Receipt>)
    requires multiset(Sources(rs)) == multiset(Sources(rs'))
    ensures MembersMatch(c, rs) <==> MembersMatch(c, rs')
  {
    MembersMatchExactly(c, rs);
    MembersMatchExactly(c, rs');
    EvidencePermutes(Sources(rs), Sources(rs'));
    assert Members(rs) == Evidence(Sources(rs)) && Members(rs') == Evidence(Sources(rs'));
  }

  function Evidence(ps: seq<Provenance>): seq<string> {
    seq(|ps|, i requires 0 <= i < |ps| => ps[i].evidenceSha)
  }

  lemma {:induction false} EvidencePermutes(ps: seq<Provenance>, qs: seq<Provenance>)
    requires multiset(ps) == multiset(qs)
    ensures multiset(Evidence(ps)) == multiset(Evidence(qs))
  {
    if ps == [] {
      assert |multiset(qs)| == 0;
    } else {
      var i := Sums.TakeOut(ps, qs);
      EvidencePermutes(ps[1..], qs[..i] + qs[i + 1..]);
      assert Evidence(ps) == [ps[0].evidenceSha] + Evidence(ps[1..]);
      assert Evidence(qs) == Evidence(qs[..i]) + ([qs[i].evidenceSha] + Evidence(qs[i + 1..]));
      assert Evidence(qs[..i] + qs[i + 1..]) == Evidence(qs[..i]) + Evidence(qs[i + 1..]);
    }
  }

  /** A v2 candidate built from records validates against any permutation of them and of the expectations, differs from the v1
      candidate only in schema, root and seal, and cannot be upgraded again. */
  lemma BuiltValidates(lib: Library, c: Candidate, rs: seq<Receipt>, rs': seq<Receipt>,
                       es: seq<Expectation>, es': seq<Expectation>)
    requires BuildV2(lib, c, rs, es).Some? && multiset(rs) == multiset(rs') && multiset(es) == multiset(es')
    ensures var v2 := BuildV2(lib, c, rs, es).value;
            && Validate(lib, v2, rs', es') == Some(v2)
            && v2 == c.(schema := V2, receiptsSha := v2.receiptsSha, candidateSha := v2.candidateSha)
            && BuildV2(lib, v2, rs', es') == None
  {
    var v2 := BuildV2(lib, c, rs, es).value;
    CanonicalIgnoresOrder(rs, rs', c.profile, es, es');
    SourcesPermute(rs, rs');
    MembersPermute(c, rs, rs');
    assert MembersMatch(v2, rs') <==> MembersMatch(c, rs');
  }

  lemma RootOfSources(lib: Library, rs: seq<Receipt>, profile: string, es: seq<Expectation>) returns (list: seq<Provenance>)
    requires Root(lib, rs, profile, es).Some?
    ensures Root(lib, rs, profile, es) == Some(lib.sha(lib.json(list)))
    ensures multiset(list) == multiset(Sources(rs)) == multiset(Expected(es))
  {
    AcceptedExactly(rs, profile, es);
    list := Canonical(rs, profile, es).value;
    ByKeyIsTotalPreorder(KeyOf);
    SortSorts(ByKey(KeyOf), Sources(rs));
  }

  /** The binding: under a collision-free digest a candidate validates against no other sources than those
      of its root, whatever expectations are presented with them. */
  lemma ValidationBinds(lib: Library, c: Candidate, rs: seq<Receipt>, es: seq<Expectation>,
                        rs': seq<Receipt>, es': seq<Expectation>)
    requires forall p, q :: lib.sha(lib.json(p)) == lib.sha(lib.json(q)) ==> p == q
    requires Validate(lib, c, rs, es).Some? && Validate(lib, c, rs', es').Some?
    ensures multiset(Sources(rs)) == multiset(Sources(rs'))
    ensures multiset(Expected(es)) == multiset(Expected(es'))
  {
    var list := RootOfSources(lib, rs, c.profile, es);
    var list' := RootOfSources(lib, rs', c.profile, es');
    assert list == list';
  }
}

/** The registration server's tables (reg/main.cc): records by identity, by keyword, and all of them. */
module Registry {

  type Id = string
  type Keyword = string

  const MAX_RESULTS := 100

  /** A RegRecord: `handle` tells records with equal contents apart. */
  datatype Record = Record(handle: nat, id: Id, keywords: seq<Keyword>)

  type Index = map<Keyword, set<Record>>

  predicate Indexed(ix: Index, kw: Keyword, r: Record) {
    kw in ix && r in ix[kw]
  }

  predicate NoEmptySets(ix: Index) {
    forall kw :: kw in ix ==> ix[kw] != {}
  }

  /** The three tables describe the same records. */
  ghost predicate Agree(idhash: map<Id, Record>, all: set<Record>, ix: Index) {
    && (forall id :: id in idhash ==> idhash[id] in all && idhash[id].id == id)
    && (forall r :: r in all ==> r.id in idhash && idhash[r.id] == r)
    && NoEmptySets(ix)
    && (forall kw, r :: Indexed(ix, kw, r) <==> r in all && kw in r.keywords)
  }

  /** The set of records determines both hash tables. */
  lemma TablesDetermined(idhash: map<Id, Record>, idhash': map<Id, Record>, all: set<Record>, ix: Index, ix': Index)
    requires Agree(idhash, all, ix) && Agree(idhash', all, ix')
    ensures idhash == idhash' && ix == ix'
  {
    forall id ensures id in idhash <==> id in idhash' {
      if id in idhash { assert idhash[id] in all; }
      if id in idhash' { assert idhash'[id] in all; }
    }
    forall kw ensures kw in ix <==> kw in ix' {
      if kw in ix { var r :| r in ix[kw]; assert Indexed(ix, kw, r) && Indexed(ix', kw, r); }
      if kw in ix' { var r :| r in ix'[kw]; assert Indexed(ix', kw, r) && Indexed(ix, kw, r); }
    }
    forall kw | kw in ix ensures ix[kw] == ix'[kw] {
      forall r ensures r in ix[kw] <==> r in ix'[kw] { assert Indexed(ix, kw, r) <==> Indexed(ix', kw, r); }
    }
  }

  /** What a search should find: the records that have every keyword. */
  function Scan(all: set<Record>, kwords: seq<Keyword>): set<Record> {
    set r | r in all && forall i :: 0 <= i < |kwords| ==> kwords[i] in r.keywords
  }

  function Lookup(ix: Index, kw: Keyword): set<Record> { if kw in ix then ix[kw] else {} }

  lemma LookupIs(idhash: map<Id, Record>, all: set<Record>, ix: Index, kw: Keyword)
    requires Agree(idhash, all, ix)
    ensures Lookup(ix, kw) == set r | r in all && kw in r.keywords
  {
    forall r ensures r in Lookup(ix, kw) <==> r in all && kw in r.keywords { assert r in Lookup(ix, kw) <==> Indexed(ix, kw, r); }
  }

  /** One turn of regKeywords: the record joins the keyword's set ... */
  function With(ix: Index, kw: Keyword, r: Record): Index {
    ix[kw := Lookup(ix, kw) + {r}]
  }

  /** ... or leaves it, and an empty set leaves the table. */
  function Without(ix: Index, kw: Keyword, r: Record): Index {
    if Lookup(ix, kw) - {r} == {} then ix - {kw} else ix[kw := Lookup(ix, kw) - {r}]
  }

  lemma WithHas(ix: Index, kw: Keyword, r: Record)
    requires NoEmptySets(ix)
    ensures NoEmptySets(With(ix, kw, r))
    ensures forall k, x :: Indexed(With(ix, kw, r), k, x) <==> Indexed(ix, k, x) || (x == r && k == kw)
  {
  }

  lemma WithoutHas(ix: Index, kw: Keyword, r: Record)
    requires NoEmptySets(ix)
    ensures NoEmptySets(Without(ix, kw, r))
    ensures forall k, x :: Indexed(Without(ix, kw, r), k, x) <==> Indexed(ix, k, x) && !(x == r && k == kw)
  {
    forall k, x ensures Indexed(Without(ix, kw, r), k, x) <==> Indexed(ix, k, x) && !(x == r && k == kw) {
      assert x in Lookup(ix, kw) - {r} <==> Indexed(ix, kw, x) && x != r;
    }
  }

  class RegServer {
    var idhash: map<Id, Record>
    var allrecords: set<Record>
    var kwhash: Index

    ghost predicate Valid() reads this {
      Agree(idhash, allrecords, kwhash)
    }

    constructor ()
      ensures Valid() && allrecords == {}
    {
      idhash, allrecords, kwhash := map[], {}, map[];
    }

    /** regKeywords(true) */
    method AddKeywords(r: Record)
      requires NoEmptySets(kwhash)
      modifies this`kwhash
      ensures NoEmptySets(kwhash)
      ensures forall kw, x :: Indexed(kwhash, kw, x) <==> Indexed(old(kwhash), kw, x) || (x == r && kw in r.keywords)
    {
      hide Indexed, NoEmptySets, With, Without;
      var i := 0;
      while i < |r.keywords|
        invariant 0 <= i <= |r.keywords| && NoEmptySets(kwhash)
        invariant forall kw, x :: Indexed(kwhash, kw, x) <==> Indexed(old(kwhash), kw, x) || (x == r && kw in r.keywords[..i])
      {
        var kw := r.keywords[i];
        assert r.keywords[..i + 1] == r.keywords[..i] + [kw];
        WithHas(kwhash, kw, r);
        kwhash := With(kwhash, kw, r);
        i := i + 1;
      }
      assert r.keywords[..i] == r.keywords;
    }

    /** regKeywords(false): sets that become empty leave the table, also for repeated keywords. */
    method DropKeywords(r: Record)
      requires NoEmptySets(kwhash)
      modifies this`kwhash
      ensures NoEmptySets(kwhash)
      ensures forall kw, x :: Indexed(kwhash, kw, x) <==> Indexed(old(kwhash), kw, x) && !(x == r && kw in r.keywords)
    {
      hide Indexed, NoEmptySets, With, Without;
      var i := 0;
      while i < |r.keywords|
        invariant 0 <= i <= |r.keywords| && NoEmptySets(kwhash)
        invariant forall kw, x :: Indexed(kwhash, kw, x) <==> Indexed(old(kwhash), kw, x) && !(x == r && kw in r.keywords[..i])
      {
        var kw := r.keywords[i];
        assert r.keywords[..i + 1] == r.keywords[..i] + [kw];
        WithoutHas(kwhash, kw, r);
        kwhash := Without(kwhash, kw, r);
        i := i + 1;
      }
      assert r.keywords[..i] == r.keywords;
    }

    /** ~RegRecord, also when a record times out */
    method Remove(r: Record)
      requires Valid() && r in allrecords
      modifies this
      ensures Valid() && allrecords == old(allrecords) - {r}
    {
      assert idhash[r.id] == r;   // the assertion of the source
      idhash := idhash - {r.id};
      allrecords := allrecords - {r};
      DropKeywords(r);
    }

    /** The RegRecord constructor: a record with the same identity is replaced. */
    method Insert(r: Record)
      requires Valid() && r !in allrecords
      modifies this
      ensures Valid()
      ensures allrecords == (set x | x in old(allrecords) && x.id != r.id) + {r}
    {
      if r.id in idhash { Remove(idhash[r.id]); }
      assert r.id !in idhash;
      idhash := idhash[r.id := r];
      allrecords := allrecords + {r};
      AddKeywords(r);
    }

    /** doSearch: starting from the rarest keyword gives what a scan of all records gives, and the
        index operator, which would create missing entries, is never applied to a missing one. */
    method Search(kwords: seq<Keyword>) returns (found: set<Record>)
      requires Valid()
      modifies this`kwhash
      ensures found == Scan(allrecords, kwords) && kwhash == old(kwhash)
    {
      if kwords == [] {
        found := allrecords;
        return;
      }
      var minset, minkw, _ := Rarest(kwords);
      var i := 0;
      while i < |kwords|
        invariant 0 <= i <= |kwords| && kwhash == old(kwhash)
        invariant minset <= Lookup(kwhash, minkw)
        invariant forall r :: r in minset <==> r in Lookup(kwhash, minkw) && Scanned(kwhash, kwords[..i], r)
      {
        if minset == {} { break; }
        var kw := kwords[i];
        assert kwords[..i + 1] == kwords[..i] + [kw];
        if kw != minkw {
          assert kw in kwhash by { assert |Lookup(kwhash, minkw)| <= |Lookup(kwhash, kw)|; NonEmptyCard(minset, Lookup(kwhash, minkw)); }
          kwhash := if kw in kwhash then kwhash else kwhash[kw := {}];
          minset := minset * kwhash[kw];
        }
        i := i + 1;
      }
      found := minset;
      FoundIs(idhash, allrecords, kwhash, kwords, minkw, found, i);
    }

    /** The loop that picks the keyword with the fewest records. */
    method Rarest(kwords: seq<Keyword>) returns (minset: set<Record>, minkw: Keyword, at: nat)
      requires kwords != []
      ensures at < |kwords| && minkw == kwords[at] && minset == Lookup(kwhash, minkw)
      ensures forall i :: 0 <= i < |kwords| ==> |minset| <= |Lookup(kwhash, kwords[i])|
    {
      at, minkw := 0, kwords[0];
      minset := Lookup(kwhash, minkw);
      var i := 1;
      while i < |kwords|
        invariant 1 <= i <= |kwords| && at < i && minkw == kwords[at] && minset == Lookup(kwhash, minkw)
        invariant forall j :: 0 <= j < i ==> |minset| <= |Lookup(kwhash, kwords[j])|
      {
        var here := Lookup(kwhash, kwords[i]);
        if |here| < |minset| { minset, minkw, at := here, kwords[i], i; }
        i := i + 1;
      }
    }
  }

  predicate Scanned(ix: Index, kwords: seq<Keyword>, r: Record) {
    forall i :: 0 <= i < |kwords| ==> r in Lookup(ix, kwords[i])
  }

  lemma NonEmptyCard(s: set<Record>, t: set<Record>)
    requires s != {} && s <= t
    ensures |t| > 0
  {
    var x :| x in s;
    assert x in t;
  }

  lemma FoundIs(idhash: map<Id, Record>, all: set<Record>, ix: Index, kwords: seq<Keyword>, minkw: Keyword,
      found: set<Record>, i: nat)
    requires Agree(idhash, all, ix) && i <= |kwords| && minkw in kwords && (i < |kwords| ==> found == {})
    requires forall r :: r in found <==> r in Lookup(ix, minkw) && Scanned(ix, kwords[..i], r)
    ensures found == Scan(all, kwords)
  {
    forall kw { LookupIs(idhash, all, ix, kw); }
    forall r ensures r in found <==> r in Scan(all, kwords) {
      if r in Scan(all, kwords) {
        assert minkw in r.keywords;
        forall j | 0 <= j < |kwords[..i]| ensures r in Lookup(ix, kwords[..i][j]) { assert kwords[j] in r.keywords; }
      } else if r in found {
        assert kwords[..i] == kwords;
        forall j | 0 <= j < |kwords| ensures kwords[j] in r.keywords { assert r in Lookup(ix, kwords[j]); }
      }
    }
  }

  /** The reply: at most MAX_RESULTS of the records found, and whether that is all of them. */
  method Reply(found: set<Record>) returns (sent: seq<Record>, complete: bool)
    ensures complete <==> |found| <= MAX_RESULTS
    ensures (forall r :: r in sent ==> r in found) && |sent| == if complete then |found| else MAX_RESULTS
    ensures forall i, j :: 0 <= i < j < |sent| ==> sent[i] != sent[j]
    ensures complete ==> forall r :: r in found ==> r in sent
  {
    complete := |found| <= MAX_RESULTS;
    var left := if complete then |found| else MAX_RESULTS;
    sent := [];
    var rest := found;
    while left > 0
      invariant 0 <= left <= |rest| && rest <= found && |rest| == |found| - |sent|
      invariant |sent| + left == if complete then |found| else MAX_RESULTS
      invariant forall r :: r in found <==> r in sent || r in rest
      invariant forall r :: r in sent ==> r !in rest
      invariant forall i, j :: 0 <= i < j < |sent| ==> sent[i] != sent[j]
    {
      var r :| r in rest;
      sent, rest, left := sent + [r], rest - {r}, left - 1;
    }
  }
}

/** Ids of a documentation page's headings. How a heading becomes its base slug is a parameter. */
module HeadingIds {
  import opened Core

  function Itoa(n: nat): (s: string)
    ensures s != "" && '-' !in s
  {
    var last := ['0' + (n % 10) as char];
    if n < 10 then last else Itoa(n / 10) + last
  }

  lemma {:induction false} ItoaInjective(m: nat, n: nat)
    requires Itoa(m) == Itoa(n)
    ensures m == n
    decreases m + n
  {
    var (s, t) := (Itoa(m), Itoa(n));
    assert s[|s| - 1] == '0' + (m % 10) as char && t[|t| - 1] == '0' + (n % 10) as char;
    assert s[..|s| - 1] == if m < 10 then "" else Itoa(m / 10);
    assert t[..|t| - 1] == if n < 10 then "" else Itoa(n / 10);
    if m >= 10 && n >= 10 {
      ItoaInjective(m / 10, n / 10);
    }
  }

  function Candidate(base: string, n: nat): string {
    base + "-" + Itoa(n)
  }

  lemma CandidatesDiffer(base: string, m: nat, n: nat)
    requires m != n
    ensures Candidate(base, m) != Candidate(base, n)
  {
    if Candidate(base, m) == Candidate(base, n) {
      var head := base + "-";
      assert Candidate(base, m)[|head|..] == Itoa(m) && Candidate(base, n)[|head|..] == Itoa(n);
      ItoaInjective(m, n);
    }
  }

  function Candidates(base: string, lo: nat, hi: nat): set<string> {
    set n: nat | lo < n <= hi :: Candidate(base, n)
  }

  /** Candidates with different numbers are as many as their numbers. */
  lemma {:induction false} CandidatesCount(base: string, lo: nat, hi: nat)
    requires lo <= hi
    ensures |Candidates(base, lo, hi)| == hi - lo
    decreases hi
  {
    if lo == hi {
      assert Candidates(base, lo, hi) == {};
    } else {
      CandidatesCount(base, lo, hi - 1);
      forall n: nat | lo < n <= hi - 1
        ensures Candidate(base, n) != Candidate(base, hi)
      {
        CandidatesDiffer(base, n, hi);
      }
      assert Candidates(base, lo, hi) == Candidates(base, lo, hi - 1) + {Candidate(base, hi)};
    }
  }

  /** Used candidates are a part of the used ids, so there are no more of them. */
  lemma UsedCandidatesAreFew(base: string, lo: nat, hi: nat, used: set<string>)
    requires lo <= hi && forall n: nat :: lo < n <= hi ==> Candidate(base, n) in used
    ensures hi - lo <= |used|
  {
    CandidatesCount(base, lo, hi);
    SubsetSize(Candidates(base, lo, hi), used);
  }

  class Slugs {
    /** Each used id with the last number tried after it. */
    var seen: map<string, nat>

    constructor ()
      ensures seen == map[]
    {
      seen := map[];
    }

    /** The base if it is free, else the base with the least free number above the last one tried for it. */
    method Unique(base: string) returns (id: string)
      modifies this
      ensures id !in old(seen) && seen.Keys == old(seen).Keys + {id}
      ensures base !in old(seen) ==> id == base
      ensures base in old(seen) ==> exists n: nat :: FirstFree(old(seen), base, n) && id == Candidate(base, n)
    {
      if base !in seen {
        seen := seen[base := 0];
        return base;
      }
      var count := seen[base];
      while true
        invariant seen == old(seen) && count >= seen[base]
        invariant forall n: nat :: seen[base] < n <= count ==> Candidate(base, n) in seen
        // the used candidates are among the used ids
        decreases |seen| + seen[base] - count
      {
        UsedCandidatesAreFew(base, seen[base], count, seen.Keys);
        count := count + 1;
        var candidate := Candidate(base, count);
        if candidate !in seen {
          assert FirstFree(old(seen), base, count);
          seen := seen[base := count][candidate := 0];
          return candidate;
        }
      }
    }
  }

  predicate FirstFree(seen: map<string, nat>, base: string, n: nat)
    requires base in seen
  {
    n > seen[base] && Candidate(base, n) !in seen && forall m: nat :: seen[base] < m < n ==> Candidate(base, m) in seen
  }

  datatype Heading = Heading(level: nat, text: string)

  /** The headings a page lists: those of the second and third level. */
  function Listed(headings: seq<Heading>): seq<Heading> {
    if headings == [] then []
    else
      var last := headings[|headings| - 1];
      Listed(headings[..|headings| - 1]) + (if last.level == 2 || last.level == 3 then [last] else [])
  }

  /** Ids in the order of their headings: distinct, each beginning with its heading's slug and equal to it while that is free. */
  predicate AreIds(ids: seq<string>, headings: seq<Heading>, slug: string -> string) {
    && |ids| == |headings|
    && (forall i, j :: 0 <= i < j < |ids| ==> ids[i] != ids[j])
    && (forall i :: 0 <= i < |ids| ==> IsId(ids, i, slug(headings[i].text)))
  }

  predicate IsId(ids: seq<string>, i: nat, base: string)
    requires i < |ids|
  {
    base <= ids[i] && (base !in ids[..i] ==> ids[i] == base)
  }

  lemma OneIdMore(ids: seq<string>, id: string, headings: seq<Heading>, h: Heading, slug: string -> string)
    requires AreIds(ids, headings, slug) && id !in ids
    requires slug(h.text) <= id && (slug(h.text) !in ids ==> id == slug(h.text))
    ensures AreIds(ids + [id], headings + [h], slug)
  {
    var more := ids + [id];
    forall i | 0 <= i < |more|
      ensures IsId(more, i, slug((headings + [h])[i].text))
    {
      if i < |ids| {
        assert IsId(ids, i, slug(headings[i].text));
        assert more[..i] == ids[..i];
      } else {
        assert more[..i] == ids;
      }
    }
  }

  /** Whatever the headings and however they are slugged, the ids of a page are pairwise distinct. */
  method PageIds(headings: seq<Heading>, slug: string -> string) returns (ids: seq<string>)
    ensures AreIds(ids, Listed(headings), slug)
  {
    ids := [];
    var slugs := new Slugs();
    for k := 0 to |headings|
      invariant fresh(slugs)
      invariant slugs.seen.Keys == set id | id in ids
      invariant AreIds(ids, Listed(headings[..k]), slug)
    {
      var h := headings[k];
      assert headings[..k + 1][..k] == headings[..k];
      if h.level == 2 || h.level == 3 {
        var id := slugs.Unique(slug(h.text));
        OneIdMore(ids, id, Listed(headings[..k]), h, slug);
        ids := ids + [id];
      }
    }
    assert headings[..|headings|] == headings;
  }
}

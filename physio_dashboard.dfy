/** The clinician's patient list (components/PhysioDashboard.tsx) and its
    search box. */
module PhysioDashboard {

  import opened Types
  import opened Seqs
  import opened Text

  /** The search predicate: name or condition contain the term ignoring case;
      the identity document must contain it exactly as typed. */
  predicate Matches(p: PatientInfo, term: string) {
    || Contains(ToLower(p.name), ToLower(term))
    || Contains(p.idNumber, term)
    || Contains(ToLower(p.condition), ToLower(term))
  }

  /** `filteredPatients`. */
  function FilterPatients(ps: seq<PatientInfo>, term: string): (r: seq<PatientInfo>)
    ensures forall p :: p in r <==> p in ps && Matches(p, term)
    ensures SubSeq(r, ps)
    ensures forall p :: multiset(r)[p] == if Matches(p, term) then multiset(ps)[p] else 0
  {
    var keep := (p: PatientInfo) => Matches(p, term);
    FilterCounts(ps, keep);
    Filter(ps, keep)
  }

  /** An empty search lists every patient, in order. */
  lemma EmptySearchListsAll(ps: seq<PatientInfo>)
    ensures FilterPatients(ps, "") == ps
  {
    forall i | 0 <= i < |ps| ensures Matches(ps[i], "") {
      ContainsEmpty(ToLower(ps[i].name));
    }
    FilterAll(ps, (p: PatientInfo) => Matches(p, ""));
  }

  /** A patient found by name is found whatever the case of the term. */
  lemma NameSearchIgnoresCase(p: PatientInfo, term: string)
    requires Contains(ToLower(p.name), ToLower(term))
    ensures Matches(p, ToUpper(term)) && Matches(p, ToLower(term))
  {
    assert ToLower(ToUpper(term)) == ToLower(term);
    ToLowerIdempotent(term);
  }

  /** The document match, unlike the other two, depends on case: a patient
      whose only text is the document "X" is found by "X" but not by "x". */
  lemma IdNumberSearchIsCaseSensitive(p: PatientInfo)
    requires p.name == "" && p.condition == "" && p.idNumber == "X"
    ensures Matches(p, "X") && !Matches(p, "x")
  {
    assert ToLower("x") == "x";
    assert !Contains("X", "x") by {
      assert "X"[..1] == "X" && "X" != "x";
      assert "X"[1..] == "";
    }
    assert Contains("X", "X") by {
      assert StartsWith("X", "X");
    }
  }
}

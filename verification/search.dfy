/** The client-name search of the history tab (frontend/components/HistoryTab.tsx:14-18):
    keep the verifications whose lower-cased client name contains the lower-cased term.
    `lower` stands for `toLowerCase`; `AsciiLower` is one concrete choice of it. */
module HistorySearch {
  import opened Types
  import Seqs

  /** The name matches the term, both case-folded by `lower`. */
  predicate Matches(v: IncomeVerification, term: string, lower: string -> string)
  {
    Seqs.Includes(lower(v.clientName), lower(term))
  }

  /** The history tab's list: the verifications whose folded client name contains the folded
      search term, in history order. */
  function Search(vs: seq<IncomeVerification>, term: string, lower: string -> string): (r: seq<IncomeVerification>)
    ensures |r| <= |vs|
    ensures Seqs.IsSubsequence(r, vs)
    ensures forall v :: v in r <==> v in vs && Seqs.Includes(lower(v.clientName), lower(term))
    ensures forall v :: multiset(r)[v] == if Matches(v, term, lower) then multiset(vs)[v] else 0
  {
    var keep := (v: IncomeVerification) => Matches(v, term, lower);
    Seqs.FilterIsSubsequence(keep, vs);
    Seqs.FilterMultiplicity(keep, vs);
    Seqs.Filter(keep, vs)
  }

  /** A verification is kept exactly when the folded term sits somewhere inside its folded name. */
  lemma SearchKeepsExactlyContaining(vs: seq<IncomeVerification>, term: string, lower: string -> string,
                                      v: IncomeVerification)
    ensures v in Search(vs, term, lower) <==>
      v in vs && exists i :: Seqs.OccursAt(lower(v.clientName), lower(term), i)
  {
    Seqs.IncludesIffOccurs(lower(v.clientName), lower(term));
  }

  /** With an empty term (the initial state of the box) every verification is listed, in order. */
  lemma EmptyTermKeepsAll(vs: seq<IncomeVerification>, lower: string -> string)
    requires lower("") == ""
    ensures Search(vs, "", lower) == vs
  {
    forall i | 0 <= i < |vs|
      ensures Matches(vs[i], "", lower)
    {
      Seqs.EmptyIncluded(lower(vs[i].clientName));
    }
    Seqs.FilterKeepsAll((v: IncomeVerification) => Matches(v, "", lower), vs);
  }

  /** Typing the term already lower-cased finds the same verifications, when folding twice is
      folding once on that term. */
  lemma LowercasedTermSameResult(vs: seq<IncomeVerification>, term: string, lower: string -> string)
    requires lower(lower(term)) == lower(term)
    ensures Search(vs, lower(term), lower) == Search(vs, term, lower)
  {
    Seqs.FilterCongruent(
      (v: IncomeVerification) => Matches(v, lower(term), lower),
      (v: IncomeVerification) => Matches(v, term, lower), vs);
  }

  /** Lower-case of one character, for the ASCII letters only. */
  function AsciiLowerChar(c: char): char
  {
    if 'A' <= c <= 'Z' then (c as int - 'A' as int + 'a' as int) as char else c
  }

  /** Lower-cases the ASCII letters of `s` and keeps every other character. */
  function AsciiLower(s: string): (r: string)
    ensures |r| == |s|
    ensures forall i :: 0 <= i < |s| ==> r[i] == AsciiLowerChar(s[i])
    ensures forall i :: 0 <= i < |s| ==> !('A' <= r[i] <= 'Z')
  {
    seq(|s|, i requires 0 <= i < |s| => AsciiLowerChar(s[i]))
  }

  /** ASCII lower-casing is idempotent, so it meets the requirement of `LowercasedTermSameResult`. */
  lemma AsciiLowerIdempotent(s: string)
    ensures AsciiLower(AsciiLower(s)) == AsciiLower(s)
  {
  }

  /** With ASCII folding, a term and its lower-cased form find the same verifications, and the
      empty term finds them all. */
  lemma AsciiSearchIgnoresCase(vs: seq<IncomeVerification>, term: string)
    ensures Search(vs, AsciiLower(term), AsciiLower) == Search(vs, term, AsciiLower)
    ensures Search(vs, "", AsciiLower) == vs
  {
    AsciiLowerIdempotent(term);
    LowercasedTermSameResult(vs, term, AsciiLower);
    EmptyTermKeepsAll(vs, AsciiLower);
  }

  /** An example: "ana" finds "ANA SILVA" and not "Rui". */
  lemma SearchExample()
    ensures var a := IncomeVerification("1", "ANA SILVA", Wrappers.None, Wrappers.None, "", "", "", [], 0.0, 0.0, "");
      var b := IncomeVerification("2", "Rui", Wrappers.None, Wrappers.None, "", "", "", [], 0.0, 0.0, "");
      var r := Search([a, b], "ana", AsciiLower);
      a in r && b !in r
  {
    var a := IncomeVerification("1", "ANA SILVA", Wrappers.None, Wrappers.None, "", "", "", [], 0.0, 0.0, "");
    var b := IncomeVerification("2", "Rui", Wrappers.None, Wrappers.None, "", "", "", [], 0.0, 0.0, "");
    assert AsciiLower("ana") == "ana";
    assert AsciiLower(a.clientName)[..3] == "ana";
    var nb := AsciiLower(b.clientName);
    assert nb[0] == 'r';
    assert !Seqs.Includes(nb, "ana") by {
      assert nb[..3] != "ana" by { assert nb[..3][0] == 'r'; }
      assert !Seqs.Includes(nb[3..], "ana");
      assert !Seqs.Includes(nb[2..], "ana") by { assert nb[2..][1..] == nb[3..]; }
      assert !Seqs.Includes(nb[1..], "ana") by { assert nb[1..][1..] == nb[2..]; }
    }
  }
}

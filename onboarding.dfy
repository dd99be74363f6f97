/** The learner profile the onboarding form of
    src/components/OnboardingModal.jsx builds and saves: a name (with a
    default per interface language), a goal, and the hobbies typed as a
    comma-separated list. Saving the profile is left out. */
module Onboarding {
  import opened JsStrings

  datatype Profile = Profile(name: string, targetGoal: string, hobbies: seq<string>)

  /** The name given to a learner who leaves it blank. */
  function DefaultName(lang: string): string
  {
    if lang == "vi" then "Học viên" else "Learner"
  }

  /** The hobby separators: the ASCII comma and the full-width comma. */
  const HobbySeparators: set<char> := {',', '\U{FF0C}'}

  /** Each piece trimmed. */
  function TrimAll(ps: seq<string>): (r: seq<string>)
    ensures |r| == |ps| && forall i :: 0 <= i < |ps| ==> r[i] == Trim(ps[i])
  {
    seq(|ps|, i requires 0 <= i < |ps| => Trim(ps[i]))
  }

  /** `filter(Boolean)` on strings: the non-empty ones, in order. */
  function NonEmpty(ps: seq<string>): (r: seq<string>)
    ensures forall x :: x in r <==> x in ps && x != ""
    ensures |r| <= |ps|
  {
    if ps == [] then []
    else (if ps[0] == "" then [] else [ps[0]]) + NonEmpty(ps[1..])
  }

  /** `hobbies.split(/[,，]/).map(h => h.trim()).filter(Boolean)`. */
  function Hobbies(text: string): seq<string>
  {
    NonEmpty(TrimAll(Split(text, HobbySeparators)))
  }

  /** The profile `handleSubmit` saves. */
  function BuildProfile(name: string, targetGoal: string, hobbies: string, lang: string): (p: Profile)
    ensures Trim(name) != "" ==> p.name == Trim(name)
    ensures Trim(name) == "" ==> p.name == DefaultName(lang)
    ensures p.name != ""
    ensures p.targetGoal == Trim(targetGoal)
    ensures p.hobbies == Hobbies(hobbies)
  {
    Profile(if Trim(name) != "" then Trim(name) else DefaultName(lang), Trim(targetGoal), Hobbies(hobbies))
  }

  /** The profile `handleSkip` saves. */
  function SkipProfile(lang: string): (p: Profile)
    ensures p.name == DefaultName(lang) && p.name != "" && p.targetGoal == "" && p.hobbies == []
  {
    Profile(DefaultName(lang), "", [])
  }

  /** Skipping saves what submitting an empty form saves. */
  lemma SkipIsEmptySubmit(lang: string)
    ensures SkipProfile(lang) == BuildProfile("", "", "", lang)
  {
    HobbiesOfNothing();
  }

  /** An empty hobbies field gives no hobbies. */
  lemma HobbiesOfNothing()
    ensures Hobbies("") == []
  {
    assert Split("", HobbySeparators) == [""];
    assert TrimAll([""]) == [""];
    assert NonEmpty([""]) == [] by {
      assert [""][1..] == [];
    }
  }

  /** The characters of a trimmed string all come from the original. */
  lemma TrimKeepsCharacters(s: string, c: char)
    requires c !in s
    ensures c !in Trim(s)
  {
    var i :| OccursAt(s, Trim(s), i);
    assert forall j :: 0 <= j < |Trim(s)| ==> Trim(s)[j] == s[i + j];
  }

  /** Every saved hobby is non-empty, has no surrounding whitespace, and
      contains neither comma. */
  lemma HobbiesAreClean(text: string)
    ensures forall h :: h in Hobbies(text) ==>
              h != "" && Trim(h) == h && ',' !in h && '\U{FF0C}' !in h
  {
    var pieces := Split(text, HobbySeparators);
    forall h | h in Hobbies(text)
      ensures h != "" && Trim(h) == h && ',' !in h && '\U{FF0C}' !in h
    {
      var i :| 0 <= i < |pieces| && TrimAll(pieces)[i] == h;
      assert forall j :: 0 <= j < |pieces[i]| ==> pieces[i][j] !in HobbySeparators;
      TrimmedPieceClean(pieces[i]);
    }
  }

  /** A separator-free piece trims to a trimmed, separator-free string. */
  lemma TrimmedPieceClean(p: string)
    requires forall j :: 0 <= j < |p| ==> p[j] !in HobbySeparators
    ensures Trim(Trim(p)) == Trim(p) && ',' !in Trim(p) && '\U{FF0C}' !in Trim(p)
  {
    TrimKeepsCharacters(p, ',');
    TrimKeepsCharacters(p, '\U{FF0C}');
    TrimIdempotent(p);
  }

  /** A piece that is kept: non-empty, trimmed, free of both commas. */
  predicate CleanHobby(h: string)
  {
    h != "" && Trim(h) == h && ',' !in h && '\U{FF0C}' !in h
  }

  /** Hobbies typed as a ", "-separated list of clean hobbies come back as
      exactly that list. */
  lemma HobbiesRoundTrip(hs: seq<string>)
    requires forall i :: 0 <= i < |hs| ==> CleanHobby(hs[i])
    ensures Hobbies(Join(hs, ", ")) == hs
  {
    if hs == [] {
      HobbiesOfNothing();
    } else {
      TrimmedPieces(hs);
      NonEmptyOfNonEmpty(hs);
    }
  }

  /** Trimming the pieces of a ", "-joined list of clean hobbies gives the
      list back. */
  lemma TrimmedPieces(hs: seq<string>)
    requires |hs| > 0
    requires forall i :: 0 <= i < |hs| ==> CleanHobby(hs[i])
    ensures TrimAll(Split(Join(hs, ", "), HobbySeparators)) == hs
  {
    SplitJoined(hs);
    TrimmedSpacedPieces(Split(Join(hs, ", "), HobbySeparators), hs);
  }

  /** Pieces that are the hobbies, each but the first after a space, trim to
      the hobbies. */
  lemma TrimmedSpacedPieces(pieces: seq<string>, hs: seq<string>)
    requires |pieces| == |hs| > 0 && pieces[0] == hs[0]
    requires forall i :: 0 < i < |hs| ==> pieces[i] == " " + hs[i]
    requires forall i :: 0 <= i < |hs| ==> CleanHobby(hs[i])
    ensures TrimAll(pieces) == hs
  {
    var trimmed := TrimAll(pieces);
    forall i | 0 <= i < |hs|
      ensures trimmed[i] == hs[i]
    {
      if i > 0 {
        TrimSpaced(hs[i]);
      }
    }
  }

  /** Splitting a ", "-joined list gives its first element and then every
      other element after a space. */
  lemma {:induction false} SplitJoined(hs: seq<string>)
    requires |hs| > 0
    requires forall i :: 0 <= i < |hs| ==> CleanHobby(hs[i])
    ensures var pieces := Split(Join(hs, ", "), HobbySeparators);
            |pieces| == |hs| && pieces[0] == hs[0]
            && forall i :: 0 < i < |hs| ==> pieces[i] == " " + hs[i]
  {
    if |hs| == 1 {
      SplitFree(hs[0]);
    } else {
      SplitJoined(hs[1..]);
      SplitCons(hs);
      PiecesOfCons(Split(Join(hs, ", "), HobbySeparators), Split(Join(hs[1..], ", "), HobbySeparators), hs);
    }
  }

  /** The pieces of a ", "-joined list of two or more: its first element,
      then the pieces of the rest with a space before the first of them. */
  lemma SplitCons(hs: seq<string>)
    requires |hs| > 1 && CleanHobby(hs[0])
    ensures var tail := Split(Join(hs[1..], ", "), HobbySeparators);
            Split(Join(hs, ", "), HobbySeparators) == [hs[0]] + ([" " + tail[0]] + tail[1..])
  {
    JoinCons(hs);
    SplitAfterFirst(hs[0], Join(hs[1..], ", "));
  }

  /** A ", "-joined list of two or more: its first element, a comma, a
      space and the rest joined. */
  lemma JoinCons(hs: seq<string>)
    requires |hs| > 1
    ensures Join(hs, ", ") == hs[0] + [','] + (" " + Join(hs[1..], ", "))
  {
  }

  /** A clean hobby, a comma and a space before `rest`: the hobby, then the
      pieces of `rest` with the space before the first of them. */
  lemma SplitAfterFirst(a: string, rest: string)
    requires CleanHobby(a)
    ensures var tail := Split(rest, HobbySeparators);
            Split(a + [','] + (" " + rest), HobbySeparators) == [a] + ([" " + tail[0]] + tail[1..])
  {
    SplitFreePrefix(a, ',', " " + rest);
    SplitSpaced(rest);
  }

  /** The pieces of a list of two or more: its first element, then the
      pieces of the rest with a space put before the first of them. */
  lemma PiecesOfCons(pieces: seq<string>, tail: seq<string>, hs: seq<string>)
    requires |hs| > 1
    requires |tail| == |hs[1..]| && tail[0] == hs[1..][0]
    requires forall i :: 0 < i < |hs[1..]| ==> tail[i] == " " + hs[1..][i]
    requires pieces == [hs[0]] + ([" " + tail[0]] + tail[1..])
    ensures |pieces| == |hs| && pieces[0] == hs[0]
    ensures forall i :: 0 < i < |hs| ==> pieces[i] == " " + hs[i]
  {
    forall i | 0 < i < |hs|
      ensures pieces[i] == " " + hs[i]
    {
      if i > 1 {
        assert pieces[i] == tail[i - 1];
        assert hs[1..][i - 1] == hs[i];
      }
    }
  }

  /** A leading space stays with the first piece. */
  lemma SplitSpaced(a: string)
    ensures Split(" " + a, HobbySeparators) == [" " + Split(a, HobbySeparators)[0]] + Split(a, HobbySeparators)[1..]
  {
    assert (" " + a)[1..] == a;
  }

  /** A string without separators splits into itself. */
  lemma {:induction false} SplitFree(a: string)
    requires ',' !in a && '\U{FF0C}' !in a
    ensures Split(a, HobbySeparators) == [a]
  {
    if a != [] {
      SplitFree(a[1..]);
      assert [a[0]] + a[1..] == a;
    }
  }

  /** A separator-free prefix followed by a separator is split off first. */
  lemma {:induction false} SplitFreePrefix(a: string, c: char, b: string)
    requires ',' !in a && '\U{FF0C}' !in a && c in HobbySeparators
    ensures Split(a + [c] + b, HobbySeparators) == [a] + Split(b, HobbySeparators)
  {
    if a == [] {
      assert (a + [c] + b)[1..] == b;
    } else {
      assert (a + [c] + b)[1..] == a[1..] + [c] + b;
      SplitFreePrefix(a[1..], c, b);
      assert [a[0]] + a[1..] == a;
    }
  }

  lemma TrimSpaced(h: string)
    requires CleanHobby(h)
    ensures Trim(" " + h) == h
  {
    assert (" " + h)[1..] == h;
    assert TrimStart(" " + h) == TrimStart(h) == h;
  }

  lemma {:induction false} NonEmptyOfNonEmpty(hs: seq<string>)
    requires forall i :: 0 <= i < |hs| ==> hs[i] != ""
    ensures NonEmpty(hs) == hs
  {
    if hs != [] {
      NonEmptyOfNonEmpty(hs[1..]);
    }
  }
}

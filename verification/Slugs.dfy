/** slugify of internal/api/project_handlers.go: a display name turned into a compose
    project name. Trimming, lower-casing and decomposing the name come first and are not
    modelled; what is left is a run of characters, some of them combining marks. */
module Slugs {

  predicate Plain(c: char) {
    'a' <= c <= 'z' || '0' <= c <= '9'
  }

  predicate Separator(c: char) {
    c == ' ' || c == '-' || c == '_' || c == '.'
  }

  /** A compose-legal name with single dashes inside only. */
  predicate Slug(s: string) {
    && s != "" && Plain(s[0]) && Plain(s[|s| - 1])
    && (forall i :: 0 <= i < |s| ==> Plain(s[i]) || s[i] == '-')
    && forall i :: 0 <= i < |s| - 1 ==> !(s[i] == '-' && s[i + 1] == '-')
  }

  /** What the builder holds after the characters so far. */
  function Built(name: string): string {
    if name == "" then ""
    else
      var b, c := Built(name[..|name| - 1]), name[|name| - 1];
      if Plain(c) then b + [c]
      else if Separator(c) && b != "" && b[|b| - 1] != '-' then b + "-"
      else b
  }

  function Trimmed(b: string): string {
    if b != "" && b[|b| - 1] == '-' then b[..|b| - 1] else b
  }

  function SlugOf(name: string): string {
    if Trimmed(Built(name)) == "" then "project" else Trimmed(Built(name))
  }

  method Slugify(name: string) returns (slug: string)
    ensures slug == SlugOf(name)
  {
    var b := "";
    var prevDash := false;
    for i := 0 to |name|
      invariant b == Built(name[..i])
      invariant prevDash <==> b != "" && b[|b| - 1] == '-'
    {
      assert name[..i + 1][..i] == name[..i];
      var c := name[i];
      if Plain(c) {
        b := b + [c];
        prevDash := false;
      } else if Separator(c) && |b| > 0 && !prevDash {
        b := b + "-";
        prevDash := true;
      }
    }
    assert name[..|name|] == name;
    slug := Trimmed(b);
    if slug == "" { slug := "project"; }
  }

  ghost predicate Building(b: string) {
    && (b != "" ==> Plain(b[0]))
    && (forall i :: 0 <= i < |b| ==> Plain(b[i]) || b[i] == '-')
    && forall i :: 0 <= i < |b| - 1 ==> !(b[i] == '-' && b[i + 1] == '-')
  }

  lemma {:induction false} BuiltIsBuilding(name: string)
    ensures Building(Built(name))
  {
    if name != "" { BuiltIsBuilding(name[..|name| - 1]); }
  }

  /** Every display name gives a legal project name. */
  lemma EveryNameGivesASlug(name: string)
    ensures Slug(SlugOf(name)) && '/' !in SlugOf(name)
  {
    BuiltIsBuilding(name);
  }

  lemma {:induction false} BuildingIsKept(b: string)
    requires Building(b)
    ensures Built(b) == b
  {
    if b != "" { BuildingIsKept(b[..|b| - 1]); }
  }

  /** A slug is its own slug, so making one from a slug changes nothing. */
  lemma SlugsAreStable(name: string)
    ensures SlugOf(SlugOf(name)) == SlugOf(name)
  {
    EveryNameGivesASlug(name);
    BuildingIsKept(SlugOf(name));
  }

  function Letters(s: string): string {
    if s == "" then "" else Letters(s[..|s| - 1]) + if Plain(s[|s| - 1]) then [s[|s| - 1]] else ""
  }

  lemma LettersMore(s: string, c: char)
    ensures Letters(s + [c]) == Letters(s) + if Plain(c) then [c] else ""
  {
    assert (s + [c])[..|s|] == s;
  }

  lemma {:induction false} BuiltKeepsLetters(name: string)
    ensures Letters(Built(name)) == Letters(name)
  {
    if name != "" {
      var b, c := Built(name[..|name| - 1]), name[|name| - 1];
      BuiltKeepsLetters(name[..|name| - 1]);
      LettersMore(b, c);
      LettersMore(b, '-');
    }
  }

  /** A name with any letter or digit keeps all of them, in order; one with none becomes
      "project". */
  lemma SlugKeepsTheLetters(name: string)
    ensures Letters(name) != "" ==> Letters(SlugOf(name)) == Letters(name)
    ensures Letters(name) == "" ==> SlugOf(name) == "project"
  {
    hide Building, Built, Trimmed, Letters;
    BuiltKeepsLetters(name);
    BuiltIsBuilding(name);
    TrimmingKeepsLetters(Built(name));
  }

  lemma TrimmingKeepsLetters(b: string)
    requires Building(b)
    ensures Letters(Trimmed(b)) == Letters(b) && (Trimmed(b) == "" <==> Letters(b) == "")
  {
    if b != "" {
      FirstLetter(b);
      assert b == b[..|b| - 1] + [b[|b| - 1]];
      LettersMore(b[..|b| - 1], b[|b| - 1]);
    }
  }

  // ----- word by word -----

  /** The name cut at blanks, dashes, underscores and dots; in between, letters and digits
      only are kept. */
  function Pieces(name: string): (ps: seq<string>)
    ensures ps != []
  {
    if name == "" then [""]
    else
      var ps, c := Pieces(name[..|name| - 1]), name[|name| - 1];
      if c == ' ' || c == '-' || c == '_' || c == '.' then ps + [""]
      else if 'a' <= c <= 'z' || '0' <= c <= '9' then ps[..|ps| - 1] + [ps[|ps| - 1] + [c]]
      else ps
  }

  function NonEmpty(ps: seq<string>): seq<string> {
    if ps == [] then [] else NonEmpty(ps[..|ps| - 1]) + if ps[|ps| - 1] == "" then [] else [ps[|ps| - 1]]
  }

  function Dashed(words: seq<string>): string {
    if words == [] then ""
    else if |words| == 1 then words[0]
    else Dashed(words[..|words| - 1]) + "-" + words[|words| - 1]
  }

  lemma NonEmptyMore(ps: seq<string>, p: string)
    ensures NonEmpty(ps + [p]) == NonEmpty(ps) + if p == "" then [] else [p]
  {
    assert (ps + [p])[..|ps|] == ps;
  }

  lemma DashedMore(words: seq<string>, w: string)
    ensures Dashed(words + [w]) == if words == [] then w else Dashed(words) + "-" + w
  {
    assert (words + [w])[..|words|] == words;
  }

  /** What the builder holds, in words: a dash follows them when a new one is due. */
  ghost predicate Holds(b: string, ps: seq<string>) {
    var words := NonEmpty(ps);
    && ps != []
    && b == Dashed(words) + (if ps[|ps| - 1] == "" && words != [] then "-" else "")
    && (ps[|ps| - 1] != "" ==> b != "" && b[|b| - 1] != '-')
    && (words == [] <==> b == "")
  }

  lemma HoldsNothing()
    ensures Holds("", [""])
  {
    NonEmptyMore([], "");
    assert [] + [""] == [""];
  }

  lemma AfterSeparator(b: string, ps: seq<string>)
    requires Holds(b, ps)
    ensures Holds(if b != "" && b[|b| - 1] != '-' then b + "-" else b, ps + [""])
  {
    hide NonEmpty, Dashed;
    NonEmptyMore(ps, "");
    var words, last := NonEmpty(ps), ps[|ps| - 1];
    assert NonEmpty(ps + [""]) == words;
    if last == "" && words != [] {
      assert b[|b| - 1] == '-';
    }
  }

  lemma AfterLetter(b: string, ps: seq<string>, c: char)
    requires Holds(b, ps) && Plain(c)
    ensures Holds(b + [c], ps[..|ps| - 1] + [ps[|ps| - 1] + [c]])
  {
    hide NonEmpty, Dashed;
    var before, last := ps[..|ps| - 1], ps[|ps| - 1];
    assert ps == before + [last];
    NonEmptyMore(before, last);
    NonEmptyMore(before, last + [c]);
    DashedMore(NonEmpty(before), last);
    DashedMore(NonEmpty(before), last + [c]);
    var words := NonEmpty(before);
    if last == "" {
      assert NonEmpty(ps) == words && last + [c] == [c];
      if words == [] { NothingDashed(); }
    } else if words != [] {
      assert Dashed(words) + "-" + last + [c] == Dashed(words) + "-" + (last + [c]);
    }
  }

  lemma NothingDashed()
    ensures Dashed([]) == ""
  {
  }

  lemma {:induction false} BuiltHolds(name: string)
    ensures Holds(Built(name), Pieces(name))
  {
    hide Holds;
    if name == "" {
      HoldsNothing();
    } else {
      var init, c := name[..|name| - 1], name[|name| - 1];
      BuiltHolds(init);
      AfterSeparator(Built(init), Pieces(init));
      if Plain(c) { AfterLetter(Built(init), Pieces(init), c); }
    }
  }

  /** The slug is the name's words, cut where it has blanks, dashes, underscores or dots,
      with single dashes between them; a name without words becomes "project". */
  lemma SlugIsTheWords(name: string)
    ensures var words := NonEmpty(Pieces(name));
            SlugOf(name) == if words == [] then "project" else Dashed(words)
  {
    hide Pieces, NonEmpty, Dashed, Built;
    BuiltHolds(name);
    BuiltIsBuilding(name);
    if Built(name) != "" && Built(name)[|Built(name)| - 1] == '-' {
      assert Pieces(name)[|Pieces(name)| - 1] == "";
    }
  }

  lemma {:induction false} FirstLetter(b: string)
    requires b != "" && Plain(b[0])
    ensures Letters(b) != ""
  {
    if |b| > 1 { FirstLetter(b[..|b| - 1]); }
  }
}

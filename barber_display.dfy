/**
 * How barbers are shown: the avatar initials, the selection cards of the booking wizard
 * and the team section of the landing page.
 */
module BarberDisplay {
  import opened Wrappers
  import opened Text
  import opened Domain

  /** `.map((n) => n[0]).join("")`: the first character of each word; an empty word adds nothing. */
  function FirstChars(words: seq<string>): (r: string)
    ensures |r| <= |words|
  {
    if |words| == 0 then ""
    else (if |words[0]| > 0 then [words[0][0]] else "") + FirstChars(words[1..])
  }

  /** `getInitials`, the same in the barber selector and the team section. */
  function GetInitials(name: string): string {
    Upper(FirstChars(Split(name, ' ')))
  }

  /** On words that are all non-empty, one character comes from each word, in order. */
  lemma {:induction false} FirstCharsOfWords(words: seq<string>)
    requires forall k :: 0 <= k < |words| ==> |words[k]| > 0
    ensures |FirstChars(words)| == |words|
    ensures forall i :: 0 <= i < |words| ==> FirstChars(words)[i] == words[i][0]
  {
    if |words| > 0 {
      FirstCharsOfWords(words[1..]);
      var rest := FirstChars(words[1..]);
      assert FirstChars(words) == [words[0][0]] + rest;
      forall i | 1 <= i < |words| ensures FirstChars(words)[i] == words[i][0] {
        assert words[1..][i - 1] == words[i];
      }
    }
  }

  /**
   * A name of `k` non-empty words separated by single spaces has `k` initials: the first
   * letter of each word, upper-cased, in order.
   */
  lemma InitialsOfWords(words: seq<string>)
    requires |words| > 0
    requires forall k :: 0 <= k < |words| ==> |words[k]| > 0 && ' ' !in words[k]
    ensures |GetInitials(Join(words, " "))| == |words|
    ensures forall i :: 0 <= i < |words| ==> GetInitials(Join(words, " "))[i] == UpperChar(words[i][0])
  {
    SplitJoin(words, ' ');
    assert [' '] == " ";
    FirstCharsOfWords(words);
  }

  /** An empty name has no initials, and an empty word (from a run of spaces) adds none. */
  lemma InitialsSkipEmptyWords(a: seq<string>, b: seq<string>)
    ensures GetInitials("") == ""
    ensures FirstChars(a + [""] + b) == FirstChars(a + b)
  {
    FirstCharsAppend(a + [""], b);
    FirstCharsAppend(a, [""]);
    FirstCharsAppend(a, b);
    assert FirstChars([""]) == "" + FirstChars([]);
  }

  /** The initials of two runs of words are those of the first run, then those of the second. */
  lemma {:induction false} FirstCharsAppend(a: seq<string>, b: seq<string>)
    ensures FirstChars(a + b) == FirstChars(a) + FirstChars(b)
  {
    if |a| == 0 {
      assert a + b == b;
    } else {
      var ab := a + b;
      assert ab[0] == a[0] && ab[1..] == a[1..] + b;
      FirstCharsAppend(a[1..], b);
      var head: string := if |a[0]| > 0 then [a[0][0]] else "";
      var fa, fb := FirstChars(a[1..]), FirstChars(b);
      assert FirstChars(ab) == head + (fa + fb);
      assert FirstChars(a) == head + fa;
      assert head + (fa + fb) == (head + fa) + fb;
    }
  }

  // ---------------------------------------------------------------------------------
  // The barber step of the wizard

  /** The "Any Available" card is marked while no barber is chosen. */
  predicate AnySelected(selectedId: string) { selectedId == "" }

  /** A barber's card is marked while its id is the chosen one. */
  predicate CardSelected(selectedId: string, b: Barber) { selectedId == b.id }

  /**
   * Clicking a card chooses its barber: afterwards exactly the cards with that id are
   * marked, and "Any Available" is not (barber ids being non-empty).
   */
  lemma ClickMarksOneCard(barbers: seq<Barber>, k: int)
    requires 0 <= k < |barbers|
    requires forall i, j :: 0 <= i < j < |barbers| ==> barbers[i].id != barbers[j].id
    requires forall i :: 0 <= i < |barbers| ==> barbers[i].id != ""
    ensures forall j :: 0 <= j < |barbers| ==> (CardSelected(barbers[k].id, barbers[j]) <==> j == k)
    ensures !AnySelected(barbers[k].id)
  {
  }

  /** Clicking "Any Available" clears the choice: it is marked and no barber card is. */
  lemma ClickAnyClears(barbers: seq<Barber>)
    requires forall i :: 0 <= i < |barbers| ==> barbers[i].id != ""
    ensures AnySelected("")
    ensures forall j :: 0 <= j < |barbers| ==> !CardSelected("", barbers[j])
  {
  }

  /** `specialties.slice(0, 2)`: the specialties a selection card has room for. */
  function CardSpecialties(b: Barber): (r: seq<string>)
    ensures |r| == if |b.specialties| < 2 then |b.specialties| else 2
    ensures r == b.specialties[..|r|]
  {
    if |b.specialties| < 2 then b.specialties else b.specialties[..2]
  }

  /** The specialties line of a selection card, present only when the barber has some. */
  function CardSpecialtyLine(b: Barber): (r: Option<string>)
    ensures r.Some? <==> |b.specialties| > 0
  {
    if |b.specialties| > 0 then Some(Join(CardSpecialties(b), ", ")) else None
  }

  /** With one specialty the line is that specialty; with more, the first two joined by a comma. */
  lemma SpecialtyLineShape(b: Barber)
    ensures |b.specialties| == 1 ==> CardSpecialtyLine(b) == Some(b.specialties[0])
    ensures |b.specialties| >= 2 ==> CardSpecialtyLine(b) == Some(b.specialties[0] + ", " + b.specialties[1])
  {
    if |b.specialties| >= 2 {
      var two := CardSpecialties(b);
      assert Join(two, ", ") == two[0] + ", " + Join(two[1..], ", ");
    }
  }

  // ---------------------------------------------------------------------------------
  // The team section of the landing page

  /** One card of the team grid. */
  datatype TeamCard = TeamCard(name: string, initials: string, bio: Option<string>, specialties: Option<seq<string>>)

  /** What the team section shows. */
  datatype TeamView = Loading | NoBarbers | Grid(cards: seq<TeamCard>)

  /** A barber's card: the bio when it is truthy, every specialty when there is one. */
  function CardOf(b: Barber): (c: TeamCard)
    ensures c.name == b.name && c.initials == GetInitials(b.name)
    ensures c.bio.Some? <==> Given(b.bio)
    ensures c.bio.Some? ==> c.bio == b.bio
    ensures c.specialties.Some? <==> |b.specialties| > 0
    ensures c.specialties.Some? ==> c.specialties.value == b.specialties
  {
    TeamCard(b.name, GetInitials(b.name),
      if Given(b.bio) then b.bio else None,
      if |b.specialties| > 0 then Some(b.specialties) else None)
  }

  /** The loading spinner, else the empty message, else the grid. */
  function TeamSection(isLoading: bool, barbers: seq<Barber>): TeamView {
    if isLoading then Loading
    else if |barbers| == 0 then NoBarbers
    else Grid(seq(|barbers|, i requires 0 <= i < |barbers| => CardOf(barbers[i])))
  }

  /** Exactly one of the three views, and the grid holds one card per barber in order. */
  lemma TeamSectionCases(isLoading: bool, barbers: seq<Barber>)
    ensures TeamSection(isLoading, barbers).Loading? <==> isLoading
    ensures TeamSection(isLoading, barbers).NoBarbers? <==> !isLoading && |barbers| == 0
    ensures TeamSection(isLoading, barbers).Grid? <==> !isLoading && |barbers| > 0
    ensures TeamSection(isLoading, barbers).Grid? ==>
      |TeamSection(isLoading, barbers).cards| == |barbers|
      && forall i :: 0 <= i < |barbers| ==> TeamSection(isLoading, barbers).cards[i] == CardOf(barbers[i])
  {
  }
}

/** Creating a team group: the first free letter names it, and a numbered search finds an unused id. */
module TeamGroup {
  import Sets

  datatype Kind = Personal | Team

  datatype Group = Group(id: string, name: string, kind: Kind, description: string, members: int, accent: string)

  const LABELS := "ABCDEFGHIJKLMNOPQRSTUVWXYZ"

  function NameFor(letter: char): string {
    "Team " + [letter]
  }

  function Lower(letter: char): char {
    if 'A' <= letter <= 'Z' then (letter as int + 32) as char else letter
  }

  function IdBase(letter: char): string {
    "team-" + [Lower(letter)]
  }

  function Decimal(n: nat): (digits: string)
    ensures |digits| >= 1
    ensures |digits| == 1 <==> n < 10
  {
    if n < 10 then [('0' as int + n) as char] else Decimal(n / 10) + [('0' as int + n % 10) as char]
  }

  function Numbered(base: string, n: nat): string {
    base + "-" + Decimal(n)
  }

  /** The n-th id tried: the plain base, then base-2, base-3 and so on. */
  function Tried(base: string, n: nat): string {
    if n < 2 then base else Numbered(base, n)
  }

  function Names(groups: seq<Group>): set<string> {
    set g | g in groups :: g.name
  }

  function Ids(groups: seq<Group>): set<string> {
    set g | g in groups :: g.id
  }

  /** The number a string of decimal digits stands for. */
  function DecimalValue(digits: string): int {
    if digits == "" then 0 else DecimalValue(digits[..|digits| - 1]) * 10 + digits[|digits| - 1] as int - '0' as int
  }

  /** Numbers are written in decimal digits, without leading zeros. */
  lemma {:induction false} DecimalIsDecimal(n: nat)
    ensures DecimalValue(Decimal(n)) == n
    ensures forall c :: c in Decimal(n) ==> '0' <= c <= '9'
    ensures Decimal(n)[0] == '0' ==> n == 0
    decreases n
  {
    var digits := Decimal(n);
    if n < 10 {
      assert digits[..0] == "";
    } else {
      DecimalIsDecimal(n / 10);
      assert digits[..|digits| - 1] == Decimal(n / 10);
    }
  }

  lemma {:induction false} DecimalIsInjective(m: nat, n: nat)
    requires Decimal(m) == Decimal(n)
    ensures m == n
    decreases m
  {
    var a, b := Decimal(m), Decimal(n);
    assert a[|a| - 1] == b[|b| - 1];
    if m >= 10 && n >= 10 {
      assert a[..|a| - 1] == Decimal(m / 10) && b[..|b| - 1] == Decimal(n / 10);
      DecimalIsInjective(m / 10, n / 10);
    }
  }

  lemma NumberedIsInjective(base: string, m: nat, n: nat)
    requires Numbered(base, m) == Numbered(base, n)
    ensures m == n
  {
    assert Numbered(base, m)[|base| + 1..] == Decimal(m);
    assert Numbered(base, n)[|base| + 1..] == Decimal(n);
    DecimalIsInjective(m, n);
  }

  /** The taken ids numbered at or above the counter: what bounds the search. */
  ghost function Ahead(ids: set<string>, base: string, counter: nat): set<string> {
    set x | x in ids && exists m: nat :: counter <= m && x == Numbered(base, m)
  }

  lemma AheadShrinks(ids: set<string>, base: string, counter: nat)
    ensures Ahead(ids, base, counter + 1) <= Ahead(ids, base, counter)
    ensures Numbered(base, counter) in ids ==>
      Numbered(base, counter) in Ahead(ids, base, counter) && Numbered(base, counter) !in Ahead(ids, base, counter + 1)
  {
    forall m: nat | counter + 1 <= m && Numbered(base, counter) == Numbered(base, m) ensures false {
      NumberedIsInjective(base, counter, m);
    }
  }

  /** The first free letter, or C when all 26 are taken. */
  method FreeLetter(names: set<string>) returns (suffix: char)
    ensures NameFor(suffix) !in names <==> exists l :: l in LABELS && NameFor(l) !in names
    ensures NameFor(suffix) !in names ==>
      (exists k :: 0 <= k < |LABELS| && LABELS[k] == suffix && forall j :: 0 <= j < k ==> NameFor(LABELS[j]) in names)
    ensures NameFor(suffix) in names ==> suffix == 'C'
  {
    suffix := 'C';
    for k := 0 to |LABELS|
      invariant suffix == 'C'
      invariant forall j :: 0 <= j < k ==> NameFor(LABELS[j]) in names
    {
      if NameFor(LABELS[k]) !in names {
        suffix := LABELS[k];
        return;
      }
    }
    assert LABELS[2] == 'C';
  }

  /** The first unused id, found after `tries` attempts; the search ends for every finite set of ids. */
  method FreeId(ids: set<string>, base: string) returns (id: string, ghost tries: nat)
    ensures id !in ids && 1 <= tries && id == Tried(base, tries)
    ensures forall n :: 1 <= n < tries ==> Tried(base, n) in ids
  {
    id := base;
    var counter := 2;
    tries := 1;
    while id in ids
      invariant 2 <= counter == tries + 1
      invariant id == Tried(base, tries)
      invariant forall n :: 1 <= n < tries ==> Tried(base, n) in ids
      decreases |Ahead(ids, base, counter)| + (if id in ids then 1 else 0)
    {
      AheadShrinks(ids, base, counter);
      Sets.SubsetIsSmaller(Ahead(ids, base, counter + 1), Ahead(ids, base, counter));
      id := base + "-" + Decimal(counter);
      counter := counter + 1;
      tries := tries + 1;
    }
  }

  /**
   Works for every finite group list. The id is unused, and is the first unused one the search tries; the name is the
   first free letter's, and is unused exactly when some letter is free.
   */
  method CreateTeamGroup(existing: seq<Group>) returns (group: Group, ghost letter: char, ghost tries: nat)
    ensures group.id !in Ids(existing) && 1 <= tries
    ensures group.id == "team-" + [Lower(letter)] + if tries == 1 then "" else "-" + Decimal(tries)
    ensures 'A' <= letter <= 'Z' && Lower(letter) as int - 'a' as int == letter as int - 'A' as int
    ensures forall n :: 1 <= n < tries ==> Tried(IdBase(letter), n) in Ids(existing)
    ensures group.name == "Team " + [letter] && group.kind == Team
    ensures group.description == "Shared coordination" && group.members == 2 && group.accent == "#d9a5ff"
    ensures group.name !in Names(existing) <==> exists l :: l in LABELS && NameFor(l) !in Names(existing)
    ensures group.name !in Names(existing) ==>
      (exists k :: 0 <= k < |LABELS| && LABELS[k] == letter
         && forall j :: 0 <= j < k ==> NameFor(LABELS[j]) in Names(existing))
    ensures group.name in Names(existing) ==> letter == 'C'
  {
    var suffix := FreeLetter(Names(existing));
    letter := suffix;
    var id;
    id, tries := FreeId(Ids(existing), IdBase(suffix));
    group := Group(id, NameFor(suffix), Team, "Shared coordination", 2, "#d9a5ff");
  }
}

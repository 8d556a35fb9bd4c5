/** The `search` command: how many catalog entries match a name, reported as
    fixed message lines. */
module Search {
  import opened Common
  import opened Catalog
  import Text

  /** The entity kind a search is for (`enum Search`). */
  datatype SearchKind = GroupKind | TeacherKind | LectureRoomKind

  /** `ValueEnum::value_variants`: every kind, once, in declaration order. */
  function ValueVariants(): (r: seq<SearchKind>)
    ensures |r| == 3 && r[0] == GroupKind && r[1] == TeacherKind && r[2] == LectureRoomKind
    ensures forall i, j :: 0 <= i < j < |r| ==> r[i] != r[j]
  {
    [GroupKind, TeacherKind, LectureRoomKind]
  }

  /** No kind is missing from `ValueVariants`. */
  lemma ValueVariantsExhaustive(k: SearchKind)
    ensures k in ValueVariants()
  {
    var r := ValueVariants();
    match k
    case GroupKind => assert r[0] == k;
    case TeacherKind => assert r[1] == k;
    case LectureRoomKind => assert r[2] == k;
  }

  /** `ValueEnum::to_possible_value`: the name a kind has on the command line,
      which is also the noun `match_search` uses in its messages. */
  function ToPossibleValue(k: SearchKind): string {
    match k
    case GroupKind => "group"
    case TeacherKind => "teacher"
    case LectureRoomKind => "lecture_room"
  }

  /** The kind whose command-line name is `s`, looked up among the variants
      the way clap matches a `ValueEnum` argument. */
  function FromPossibleValue(s: string): (r: Option<SearchKind>)
    ensures r.Some? ==> ToPossibleValue(r.value) == s
    ensures r.None? ==> forall k :: ToPossibleValue(k) != s
  {
    FindVariant(ValueVariants(), s)
  }

  function FindVariant(variants: seq<SearchKind>, s: string): (r: Option<SearchKind>)
    ensures r.Some? ==> r.value in variants && ToPossibleValue(r.value) == s
    ensures r.None? ==> forall k :: k in variants ==> ToPossibleValue(k) != s
  {
    if variants == [] then None
    else if ToPossibleValue(variants[0]) == s then Some(variants[0])
    else FindVariant(variants[1..], s)
  }

  /** Distinct kinds have distinct command-line names, so every name parses
      back to its kind. */
  lemma PossibleValueRoundTrip(k: SearchKind)
    ensures FromPossibleValue(ToPossibleValue(k)) == Some(k)
  {
    var r := FromPossibleValue(ToPossibleValue(k));
    assert ToPossibleValue(GroupKind)[0] == 'g';
    assert ToPossibleValue(TeacherKind)[0] == 't';
    assert ToPossibleValue(LectureRoomKind)[0] == 'l';
    assert r.Some?;
  }

  lemma PossibleValueInjective(a: SearchKind, b: SearchKind)
    requires ToPossibleValue(a) == ToPossibleValue(b)
    ensures a == b
  {
    PossibleValueRoundTrip(a);
    PossibleValueRoundTrip(b);
  }

  predicate OfKind(e: Entity, k: SearchKind) {
    match k
    case GroupKind => e.Group?
    case TeacherKind => e.Teacher?
    case LectureRoomKind => e.LectureRoom?
  }

  /** The name a message shows: a teacher's full name, a group's or a room's name. */
  function ShownName(e: Entity): string {
    match e
    case Group(_, name) => name
    case Teacher(_, fullName, _) => fullName
    case LectureRoom(_, name) => name
  }

  /** One line per match, each a tab and the name, in catalog order. */
  function Listing(matches: seq<Entity>): (r: seq<string>)
    ensures |r| == |matches|
    ensures forall i :: 0 <= i < |r| ==> |r[i]| >= 1 && r[i][0] == '\t' && r[i][1..] == ShownName(matches[i])
  {
    if matches == [] then []
    else ["\t" + ShownName(matches[0])] + Listing(matches[1..])
  }

  /** The names a listing shows, read back by dropping the leading tab. */
  function ListedNames(lines: seq<string>): seq<string>
    requires forall i :: 0 <= i < |lines| ==> |lines[i]| >= 1
  {
    if lines == [] then [] else [lines[0][1..]] + ListedNames(lines[1..])
  }

  lemma {:induction false} ListingRoundTrip(matches: seq<Entity>)
    ensures ListedNames(Listing(matches)) == seq(|matches|, i requires 0 <= i < |matches| => ShownName(matches[i]))
  {
    if matches != [] {
      ListingRoundTrip(matches[1..]);
    }
  }

  /** `match_search`: a failed lookup is returned as the error; otherwise the
      lines printed for zero, one or several matches. `lookup` stands for the
      catalog's answer to the name. */
  function MatchSearch(kind: SearchKind, name: string, lookup: Result<seq<Entity>, string>): (r: Result<seq<string>, string>)
    requires lookup.Ok? ==> forall e :: e in lookup.value ==> OfKind(e, kind)
    ensures lookup.Err? ==> r == Err(lookup.error)
    ensures lookup.Ok? && |lookup.value| == 0 ==>
              r == Ok(["Didn't find any " + ToPossibleValue(kind) + "s matching '" + name + "'"])
    ensures lookup.Ok? && |lookup.value| == 1 ==>
              r == Ok(["Found 1 " + ToPossibleValue(kind) + " with name " + ShownName(lookup.value[0])])
    ensures lookup.Ok? && |lookup.value| >= 2 ==>
              && r.Ok? && |r.value| == |lookup.value| + 1
              && r.value[0] == "Found " + Text.NatToString(|lookup.value|) + " " + ToPossibleValue(kind) + "s with names:"
              && r.value[1..] == Listing(lookup.value)
  {
    match lookup
    case Err(error) => Err(error)
    case Ok(matches) =>
      if |matches| == 0 then
        Ok(["Didn't find any " + ToPossibleValue(kind) + "s matching '" + name + "'"])
      else if |matches| == 1 then
        Ok(["Found 1 " + ToPossibleValue(kind) + " with name " + ShownName(matches[0])])
      else
        Ok(["Found " + Text.NatToString(|matches|) + " " + ToPossibleValue(kind) + "s with names:"] + Listing(matches))
  }
}

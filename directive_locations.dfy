/**
 * Directive locations: the closed enumeration of places a directive may be
 * declared for, a set over it (what a directive definition stores), the
 * lookup from a location's name to the location, and the iterator that walks
 * a set in enumeration order.
 */
module DirectiveLocations {
  import opened Wrappers

  datatype DirectiveLocation =
    | ExecutableDirectiveLocationQuery
    | ExecutableDirectiveLocationMutation
    | ExecutableDirectiveLocationSubscription
    | ExecutableDirectiveLocationField
    | ExecutableDirectiveLocationFragmentDefinition
    | ExecutableDirectiveLocationFragmentSpread
    | ExecutableDirectiveLocationInlineFragment
    | TypeSystemDirectiveLocationSchema
    | TypeSystemDirectiveLocationScalar
    | TypeSystemDirectiveLocationObject
    | TypeSystemDirectiveLocationFieldDefinition
    | TypeSystemDirectiveLocationArgumentDefinition
    | TypeSystemDirectiveLocationInterface
    | TypeSystemDirectiveLocationUnion
    | TypeSystemDirectiveLocationEnum
    | TypeSystemDirectiveLocationEnumValue
    | TypeSystemDirectiveLocationInputObject
    | TypeSystemDirectiveLocationInputFieldDefinition

  /** Every location, in enumeration order. */
  const AllLocations: seq<DirectiveLocation> := [
    ExecutableDirectiveLocationQuery,
    ExecutableDirectiveLocationMutation,
    ExecutableDirectiveLocationSubscription,
    ExecutableDirectiveLocationField,
    ExecutableDirectiveLocationFragmentDefinition,
    ExecutableDirectiveLocationFragmentSpread,
    ExecutableDirectiveLocationInlineFragment,
    TypeSystemDirectiveLocationSchema,
    TypeSystemDirectiveLocationScalar,
    TypeSystemDirectiveLocationObject,
    TypeSystemDirectiveLocationFieldDefinition,
    TypeSystemDirectiveLocationArgumentDefinition,
    TypeSystemDirectiveLocationInterface,
    TypeSystemDirectiveLocationUnion,
    TypeSystemDirectiveLocationEnum,
    TypeSystemDirectiveLocationEnumValue,
    TypeSystemDirectiveLocationInputObject,
    TypeSystemDirectiveLocationInputFieldDefinition
  ]

  /** The set of locations a directive definition declares. */
  type Locations = set<DirectiveLocation>

  /** A location's position in the enumeration. */
  function Ordinal(l: DirectiveLocation): (k: nat)
    ensures k < |AllLocations| && AllLocations[k] == l
  {
    match l
    case ExecutableDirectiveLocationQuery => 0
    case ExecutableDirectiveLocationMutation => 1
    case ExecutableDirectiveLocationSubscription => 2
    case ExecutableDirectiveLocationField => 3
    case ExecutableDirectiveLocationFragmentDefinition => 4
    case ExecutableDirectiveLocationFragmentSpread => 5
    case ExecutableDirectiveLocationInlineFragment => 6
    case TypeSystemDirectiveLocationSchema => 7
    case TypeSystemDirectiveLocationScalar => 8
    case TypeSystemDirectiveLocationObject => 9
    case TypeSystemDirectiveLocationFieldDefinition => 10
    case TypeSystemDirectiveLocationArgumentDefinition => 11
    case TypeSystemDirectiveLocationInterface => 12
    case TypeSystemDirectiveLocationUnion => 13
    case TypeSystemDirectiveLocationEnum => 14
    case TypeSystemDirectiveLocationEnumValue => 15
    case TypeSystemDirectiveLocationInputObject => 16
    case TypeSystemDirectiveLocationInputFieldDefinition => 17
  }

  /** The name a location has in GraphQL source (`FIELD`, `INPUT_FIELD_DEFINITION`, ...). */
  function NameOf(l: DirectiveLocation): string {
    match l
    case ExecutableDirectiveLocationQuery => "QUERY"
    case ExecutableDirectiveLocationMutation => "MUTATION"
    case ExecutableDirectiveLocationSubscription => "SUBSCRIPTION"
    case ExecutableDirectiveLocationField => "FIELD"
    case ExecutableDirectiveLocationFragmentDefinition => "FRAGMENT_DEFINITION"
    case ExecutableDirectiveLocationFragmentSpread => "FRAGMENT_SPREAD"
    case ExecutableDirectiveLocationInlineFragment => "INLINE_FRAGMENT"
    case TypeSystemDirectiveLocationSchema => "SCHEMA"
    case TypeSystemDirectiveLocationScalar => "SCALAR"
    case TypeSystemDirectiveLocationObject => "OBJECT"
    case TypeSystemDirectiveLocationFieldDefinition => "FIELD_DEFINITION"
    case TypeSystemDirectiveLocationArgumentDefinition => "ARGUMENT_DEFINITION"
    case TypeSystemDirectiveLocationInterface => "INTERFACE"
    case TypeSystemDirectiveLocationUnion => "UNION"
    case TypeSystemDirectiveLocationEnum => "ENUM"
    case TypeSystemDirectiveLocationEnumValue => "ENUM_VALUE"
    case TypeSystemDirectiveLocationInputObject => "INPUT_OBJECT"
    case TypeSystemDirectiveLocationInputFieldDefinition => "INPUT_FIELD_DEFINITION"
  }

  /** Resolves a location name read from source; `None` for a name outside the enumeration. */
  function FromName(name: string): (r: Option<DirectiveLocation>)
    ensures r.Some? ==> NameOf(r.value) == name
  {
    if name == "QUERY" then Some(ExecutableDirectiveLocationQuery)
    else if name == "MUTATION" then Some(ExecutableDirectiveLocationMutation)
    else if name == "SUBSCRIPTION" then Some(ExecutableDirectiveLocationSubscription)
    else if name == "FIELD" then Some(ExecutableDirectiveLocationField)
    else if name == "FRAGMENT_DEFINITION" then Some(ExecutableDirectiveLocationFragmentDefinition)
    else if name == "FRAGMENT_SPREAD" then Some(ExecutableDirectiveLocationFragmentSpread)
    else if name == "INLINE_FRAGMENT" then Some(ExecutableDirectiveLocationInlineFragment)
    else if name == "SCHEMA" then Some(TypeSystemDirectiveLocationSchema)
    else if name == "SCALAR" then Some(TypeSystemDirectiveLocationScalar)
    else if name == "OBJECT" then Some(TypeSystemDirectiveLocationObject)
    else if name == "FIELD_DEFINITION" then Some(TypeSystemDirectiveLocationFieldDefinition)
    else if name == "ARGUMENT_DEFINITION" then Some(TypeSystemDirectiveLocationArgumentDefinition)
    else if name == "INTERFACE" then Some(TypeSystemDirectiveLocationInterface)
    else if name == "UNION" then Some(TypeSystemDirectiveLocationUnion)
    else if name == "ENUM" then Some(TypeSystemDirectiveLocationEnum)
    else if name == "ENUM_VALUE" then Some(TypeSystemDirectiveLocationEnumValue)
    else if name == "INPUT_OBJECT" then Some(TypeSystemDirectiveLocationInputObject)
    else if name == "INPUT_FIELD_DEFINITION" then Some(TypeSystemDirectiveLocationInputFieldDefinition)
    else None
  }

  /** Names are distinct, so looking a location's own name up gives that location back. */
  lemma NameRoundTrip(l: DirectiveLocation)
    ensures FromName(NameOf(l)) == Some(l)
  {
    match l
    case ExecutableDirectiveLocationQuery =>
    case ExecutableDirectiveLocationMutation =>
    case ExecutableDirectiveLocationSubscription =>
    case ExecutableDirectiveLocationField =>
    case ExecutableDirectiveLocationFragmentDefinition =>
    case ExecutableDirectiveLocationFragmentSpread =>
    case ExecutableDirectiveLocationInlineFragment =>
    case TypeSystemDirectiveLocationSchema =>
    case TypeSystemDirectiveLocationScalar =>
    case TypeSystemDirectiveLocationObject =>
    case TypeSystemDirectiveLocationFieldDefinition =>
    case TypeSystemDirectiveLocationArgumentDefinition =>
    case TypeSystemDirectiveLocationInterface =>
    case TypeSystemDirectiveLocationUnion =>
    case TypeSystemDirectiveLocationEnum =>
    case TypeSystemDirectiveLocationEnumValue =>
    case TypeSystemDirectiveLocationInputObject =>
    case TypeSystemDirectiveLocationInputFieldDefinition =>
  }

  /** The members of `locs` found at or after index `k` of the enumeration, in enumeration order. */
  function MembersFrom(locs: Locations, k: nat): (r: seq<DirectiveLocation>)
    requires k <= |AllLocations|
    decreases |AllLocations| - k
  {
    if k == |AllLocations| then []
    else if AllLocations[k] in locs then [AllLocations[k]] + MembersFrom(locs, k + 1)
    else MembersFrom(locs, k + 1)
  }

  /** The sequence `Iterable` walks: each member of the set once, in enumeration order, and nothing else. */
  function Iterable(locs: Locations): (r: seq<DirectiveLocation>)
    ensures forall l :: l in r <==> l in locs
    ensures forall i, j :: 0 <= i < j < |r| ==> Ordinal(r[i]) < Ordinal(r[j])
  {
    MembersFromSpec(locs, 0);
    MembersFrom(locs, 0)
  }

  /** Each location of the enumeration sits at the index its ordinal names. */
  lemma OrdinalOfIndex(k: nat)
    requires k < |AllLocations|
    ensures Ordinal(AllLocations[k]) == k
  {
  }

  /** From index `k` on, the walk visits exactly the members with ordinal at least `k`, in strictly increasing order. */
  lemma {:induction false} MembersFromSpec(locs: Locations, k: nat)
    requires k <= |AllLocations|
    ensures forall l :: l in MembersFrom(locs, k) <==> l in locs && Ordinal(l) >= k
    ensures forall i, j :: 0 <= i < j < |MembersFrom(locs, k)| ==>
      Ordinal(MembersFrom(locs, k)[i]) < Ordinal(MembersFrom(locs, k)[j])
    ensures forall i :: 0 <= i < |MembersFrom(locs, k)| ==> Ordinal(MembersFrom(locs, k)[i]) >= k
    decreases |AllLocations| - k
  {
    if k < |AllLocations| {
      MembersFromSpec(locs, k + 1);
      var rest := MembersFrom(locs, k + 1);
      OrdinalOfIndex(k);
      if AllLocations[k] in locs {
        var r := [AllLocations[k]] + rest;
        assert MembersFrom(locs, k) == r;
        assert forall i :: 0 < i < |r| ==> r[i] == rest[i - 1];
      } else {
        assert MembersFrom(locs, k) == rest;
      }
      forall l ensures l in MembersFrom(locs, k) <==> l in locs && Ordinal(l) >= k {
        if Ordinal(l) == k {
          assert l == AllLocations[k];
        }
      }
    }
  }

  /** No member of `locs` lies at or after index `k` of the enumeration, so the walk from `k` is empty. */
  lemma NothingFrom(locs: Locations, k: nat)
    requires k <= |AllLocations|
    requires forall l :: l in locs ==> Ordinal(l) < k
    ensures MembersFrom(locs, k) == []
  {
    MembersFromSpec(locs, k);
    if MembersFrom(locs, k) != [] {
      assert MembersFrom(locs, k)[0] in MembersFrom(locs, k);
    }
  }

  /** The first index at or after `from` whose location is in `locs`, or the end of the enumeration. */
  method SkipAbsent(locs: Locations, from: nat) returns (k: nat)
    requires from <= |AllLocations|
    ensures from <= k <= |AllLocations|
    ensures k < |AllLocations| ==> AllLocations[k] in locs
    ensures MembersFrom(locs, k) == MembersFrom(locs, from)
  {
    k := from;
    while k < |AllLocations| && AllLocations[k] !in locs
      invariant from <= k <= |AllLocations|
      invariant MembersFrom(locs, k) == MembersFrom(locs, from)
    {
      k := k + 1;
    }
  }

  /** Visiting the member at index `k` moves it from the rest of the walk to the end of the visited prefix. */
  lemma VisitStep(locs: Locations, visited: seq<DirectiveLocation>, k: nat)
    requires k < |AllLocations| && AllLocations[k] in locs
    requires visited + MembersFrom(locs, k) == MembersFrom(locs, 0)
    ensures MembersFrom(locs, k) == [AllLocations[k]] + MembersFrom(locs, k + 1)
    ensures (visited + [AllLocations[k]]) + MembersFrom(locs, k + 1) == MembersFrom(locs, 0)
  {
    assert MembersFrom(locs, k) == [AllLocations[k]] + MembersFrom(locs, k + 1);
    assert (visited + [AllLocations[k]]) + MembersFrom(locs, k + 1) == visited + MembersFrom(locs, k);
  }

  /**
   * The restartable iterator over a location set (`DirectiveLocations.Iterable()`):
   * `Next` advances to the next member in enumeration order and reports whether
   * there was one; `Value` is the member it stopped at.
   */
  class DirectiveLocationIterator {
    const locations: Locations
    var cursor: nat
    var current: DirectiveLocation
    /** The members `Next` has stopped at so far. */
    ghost var visited: seq<DirectiveLocation>

    ghost predicate Valid()
      reads this
    {
      && cursor <= |AllLocations|
      && visited + MembersFrom(locations, cursor) == MembersFrom(locations, 0)
      && (visited != [] ==> current == visited[|visited| - 1] && current in locations)
    }

    /** The members the iterator has not yet visited. */
    ghost function Remaining(): seq<DirectiveLocation>
      reads this
      requires cursor <= |AllLocations|
    {
      MembersFrom(locations, cursor)
    }

    constructor (locations: Locations)
      ensures Valid() && this.locations == locations
      ensures Remaining() == Iterable(locations) && visited == []
    {
      this.locations := locations;
      cursor := 0;
      current := ExecutableDirectiveLocationQuery;
      visited := [];
    }

    method Next() returns (ok: bool)
      requires Valid()
      modifies this
      ensures Valid()
      ensures ok <==> old(Remaining()) != []
      ensures ok ==> current == old(Remaining())[0] && Remaining() == old(Remaining())[1..]
      ensures ok ==> visited == old(visited) + [current]
      ensures !ok ==> Remaining() == [] && visited == old(visited)
    {
      var k := SkipAbsent(locations, cursor);
      if k == |AllLocations| {
        assert visited + MembersFrom(locations, k) == visited;
        cursor := k;
        ok := false;
      } else {
        current := AllLocations[k];
        cursor := k + 1;
        VisitStep(locations, visited, k);
        visited := visited + [current];
        ok := true;
      }
    }

    /** The member the last successful `Next` stopped at: the last one visited, a member of the set. */
    function Value(): (l: DirectiveLocation)
      reads this
      ensures Valid() && visited != [] ==> l == visited[|visited| - 1] && l in locations
    {
      current
    }
  }
}

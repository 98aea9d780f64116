/**
 * Scoreboard.java: loss counts per player name, their mirror in the properties that are saved to
 * scores.properties, and the standings sorted by loss count.
 */
module Scoreboards {
  import opened Wrappers
  import opened Text
  import Sorting

  /** ScoreEntry: one player's name and loss count. */
  datatype ScoreEntry = ScoreEntry(name: string, losses: int)

  /**
   * The losses HashMap as its list of entries, in iteration order; the order is arbitrary and no
   * property below depends on it.
   */
  predicate UniqueNames(es: seq<ScoreEntry>) {
    forall i, j :: 0 <= i < j < |es| ==> es[i].name != es[j].name
  }

  /** Map.get: the count stored for name, if any. */
  function Lookup(es: seq<ScoreEntry>, name: string): (r: Option<int>)
    ensures r.Some? <==> exists i :: 0 <= i < |es| && es[i].name == name
    ensures r.Some? ==> ScoreEntry(name, r.value) in es
  {
    if es == [] then None
    else if es[0].name == name then Some(es[0].losses)
    else Lookup(es[1..], name)
  }

  /** Map.getOrDefault(name, 0). */
  function LossesOf(es: seq<ScoreEntry>, name: string): int {
    match Lookup(es, name)
    case Some(v) => v
    case None => 0
  }

  /** Map.put: replaces name's count, or adds an entry for a new name. */
  function Put(es: seq<ScoreEntry>, name: string, v: int): (r: seq<ScoreEntry>)
    requires UniqueNames(es)
    ensures UniqueNames(r)
    ensures Lookup(r, name) == Some(v)
    ensures forall other :: other != name ==> Lookup(r, other) == Lookup(es, other)
    ensures forall e :: e in r ==> e in es || e == ScoreEntry(name, v)
  {
    if es == [] then [ScoreEntry(name, v)]
    else if es[0].name == name then [ScoreEntry(name, v)] + es[1..]
    else
      var rest := Put(es[1..], name, v);
      LookupTail(es, rest, es[0]);
      HeadNameUnique(es);
      ConsUnique(es[0], rest);
      [es[0]] + rest
  }

  lemma HeadNameUnique(es: seq<ScoreEntry>)
    requires UniqueNames(es) && es != []
    ensures forall e | e in es[1..] :: e.name != es[0].name
  {
    forall e | e in es[1..] ensures e.name != es[0].name {
      var m :| 0 <= m < |es[1..]| && es[1..][m] == e;
      assert es[m + 1] == e;
    }
  }

  lemma ConsUnique(first: ScoreEntry, rest: seq<ScoreEntry>)
    requires UniqueNames(rest) && forall e | e in rest :: e.name != first.name
    ensures UniqueNames([first] + rest)
  {
    forall i, j | 0 <= i < j < |rest| + 1 ensures ([first] + rest)[i].name != ([first] + rest)[j].name {
      if i == 0 {
        assert ([first] + rest)[j] == rest[j - 1];
        assert rest[j - 1] in rest;
      }
    }
  }

  lemma LookupTail(es: seq<ScoreEntry>, rest: seq<ScoreEntry>, first: ScoreEntry)
    requires es != [] && es[0] == first
    ensures forall other :: other != first.name ==> Lookup([first] + rest, other) == Lookup(rest, other)
  {
  }

  /** Comparator.comparingInt(ScoreEntry::losses).reversed(), as an integer key. */
  function Descending(e: ScoreEntry): int {
    -e.losses
  }

  /** A value that occurs twice in a sequence occurs at two positions. */
  lemma {:induction false} AtTwoPositions<T>(s: seq<T>, x: T)
    requires multiset(s)[x] >= 2
    ensures exists p, q :: 0 <= p < q < |s| && s[p] == x && s[q] == x
  {
    assert s == [s[0]] + s[1..];
    if s[0] == x {
      assert x in multiset(s[1..]);
      var q :| 0 <= q < |s[1..]| && s[1..][q] == x;
      assert s[q + 1] == x;
    } else {
      AtTwoPositions(s[1..], x);
      var p, q :| 0 <= p < q < |s[1..]| && s[1..][p] == x && s[1..][q] == x;
      assert s[p + 1] == x && s[q + 1] == x;
    }
  }

  /** Reordering the entries of the map keeps one entry per name. */
  lemma UniqueNamesPermutation(a: seq<ScoreEntry>, b: seq<ScoreEntry>)
    requires UniqueNames(a) && multiset(a) == multiset(b)
    ensures UniqueNames(b)
  {
    forall i, j | 0 <= i < j < |b| ensures b[i].name != b[j].name {
      if b[i] == b[j] {
        assert multiset(b)[b[i]] >= 2 by {
          assert b == b[..j] + b[j..];
          assert b[i] in b[..j] && b[j] in b[j..];
          assert multiset(b)[b[i]] == multiset(b[..j])[b[i]] + multiset(b[j..])[b[i]];
        }
        AtTwoPositions(a, b[i]);
      } else {
        assert b[i] in multiset(a) && b[j] in multiset(a);
      }
    }
  }

  /** The count load() takes from the property name once it has visited every name outside pending. */
  function Parsed(props: map<string, string>, name: string, pending: set<string>): Option<int> {
    if name in props && name !in pending && ParseInt(props[name]).Ok? then Some(ParseInt(props[name]).value) else None
  }

  class Scoreboard {
    /** The losses map. */
    var losses: seq<ScoreEntry>
    /** The Properties object that is written to the file. */
    var props: map<string, string>
    /** scores.properties as it is stored: None when the file does not exist. */
    var file: Option<map<string, string>>

    ghost predicate Valid()
      reads this
    {
      UniqueNames(losses) && forall e | e in losses :: IsInt32(e.losses)
    }

    /**
     * The constructor's load(): the stored properties, then one loss count per property whose value
     * Integer.parseInt accepts; the other properties are skipped.
     */
    constructor(stored: Option<map<string, string>>)
      ensures Valid()
      ensures file == stored
      ensures props == if stored.Some? then stored.value else map[]
      ensures forall name :: Lookup(losses, name) == Parsed(props, name, {})
    {
      file := stored;
      props := map[];
      losses := [];
      new;
      if stored.Some? {
        props := stored.value;
        var names := props.Keys;
        while names != {}
          invariant names <= props.Keys
          invariant Valid()
          invariant file == stored && props == stored.value
          invariant forall name :: Lookup(losses, name) == Parsed(props, name, names)
          decreases |names|
        {
          var name :| name in names;
          var parsed := ParseInt(props[name]);
          if parsed.Ok? {
            losses := Put(losses, name, parsed.value);
          }
          names := names - {name};
        }
      }
    }

    /** recordLoss: one more loss for name (from 0 when unknown), mirrored in props and saved. */
    method RecordLoss(name: string)
      requires Valid()
      modifies this
      ensures Valid()
      ensures Lookup(losses, name) == Some(Inc32(LossesOf(old(losses), name)))
      ensures forall other :: other != name ==> Lookup(losses, other) == Lookup(old(losses), other)
      ensures props == old(props)[name := IntToString(Inc32(LossesOf(old(losses), name)))]
      ensures file == Some(props)
    {
      var newCount := Inc32(LossesOf(losses, name));
      losses := Put(losses, name, newCount);
      props := props[name := IntToString(newCount)];
      file := Some(props);
    }

    /** standings: the entries sorted by loss count, highest first. */
    function Standings(): (r: seq<ScoreEntry>)
      reads this
      ensures multiset(r) == multiset(losses)
      ensures Sorting.SortedBy(r, Descending)
    {
      Sorting.SortByPermutesAndSorts(losses, Descending);
      Sorting.SortBy(losses, Descending)
    }

    /** clear: deletes the file only. */
    method Clear()
      modifies this
      ensures file == None
      ensures losses == old(losses) && props == old(props)
    {
      file := None;
    }
  }

  /** The standings hold exactly one entry per known name, with that name's count, highest count first. */
  lemma StandingsEntries(b: Scoreboard)
    requires b.Valid()
    ensures UniqueNames(b.Standings())
    ensures forall name, v :: ScoreEntry(name, v) in b.Standings() <==> Lookup(b.losses, name) == Some(v)
    ensures forall i, j :: 0 <= i < j < |b.Standings()| ==> b.Standings()[i].losses >= b.Standings()[j].losses
  {
    var r := b.Standings();
    UniqueNamesPermutation(b.losses, r);
    forall name, v ensures ScoreEntry(name, v) in r <==> Lookup(b.losses, name) == Some(v) {
      assert ScoreEntry(name, v) in r <==> ScoreEntry(name, v) in multiset(b.losses);
      LookupUnique(b.losses, name, v);
    }
    forall i, j | 0 <= i < j < |r| ensures r[i].losses >= r[j].losses {
      assert Descending(r[i]) <= Descending(r[j]);
    }
  }

  lemma {:induction false} LookupUnique(es: seq<ScoreEntry>, name: string, v: int)
    requires UniqueNames(es)
    ensures ScoreEntry(name, v) in es <==> Lookup(es, name) == Some(v)
  {
    if es != [] {
      LookupUnique(es[1..], name, v);
    }
  }
}

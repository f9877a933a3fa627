/** The map from section ids to numbers built while numbering. After each
    header is numbered, the header's own id is mapped to its number, then the
    name of EVERY id block of the whole document is mapped to that same number
    (the source looks the id blocks up from the document root, not from the
    header). The id blocks therefore end up mapped to the number of the last
    numbered header. */
module Registry {

  import opened Base
  import opened Tree
  import opened Numbering

  type Registry = map<string, Num>

  /** Maps every name of the list to the number. */
  function PutAll(m: Registry, names: seq<string>, n: Num): (r: Registry)
    ensures r.Keys == m.Keys + set k | k in names
    ensures forall k :: k in r ==> r[k] == if k in names then n else m[k]
    decreases |names|
  {
    if names == [] then m else PutAll(m[names[0] := n], names[1..], n)
  }

  /** The puts made for one numbered header: its id, if any, and every id
      block name now map to its number; every other entry is kept. */
  function Record(m: Registry, e: Event, names: seq<string>): (r: Registry)
    ensures e.id.Some? ==> e.id.value in r && r[e.id.value] == e.number
    ensures forall k :: k in names ==> k in r && r[k] == e.number
    ensures forall k :: k in m && k !in names && e.id != Some(k) ==> k in r && r[k] == m[k]
    ensures r.Keys == m.Keys + (set k | k in names) + (if e.id.Some? then {e.id.value} else {})
  {
    PutAll(if e.id.Some? then m[e.id.value := e.number] else m, names, e.number)
  }

  /** The registry after the headers recorded in events, given the names of the
      document's id blocks. */
  function BuildRegistry(events: seq<Event>, names: seq<string>): (r: Registry)
    ensures events == [] ==> r == map[]
    ensures events != [] ==> forall k :: k in names ==> k in r && r[k] == events[|events| - 1].number
    decreases |events|
  {
    if events == [] then map[]
    else Record(BuildRegistry(events[..|events| - 1], names), events[|events| - 1], names)
  }

  /** The ids of the headers recorded in events. */
  function HeaderIds(events: seq<Event>): set<string> {
    set i | 0 <= i < |events| && events[i].id.Some? :: events[i].id.value
  }

  lemma HeaderIdsSnoc(events: seq<Event>)
    requires events != []
    ensures var e := events[|events| - 1];
      HeaderIds(events) == HeaderIds(events[..|events| - 1]) + (if e.id.Some? then {e.id.value} else {})
  {
    var front := events[..|events| - 1];
    var e := events[|events| - 1];
    var extra := if e.id.Some? then {e.id.value} else {};
    forall k | k in HeaderIds(events) ensures k in HeaderIds(front) + extra {
      var i :| 0 <= i < |events| && events[i].id.Some? && events[i].id.value == k;
      if i < |front| {
        assert front[i] == events[i];
      }
    }
    forall k | k in HeaderIds(front) ensures k in HeaderIds(events) {
      var i :| 0 <= i < |front| && front[i].id.Some? && front[i].id.value == k;
      assert events[i] == front[i];
    }
  }

  /** Once a header is numbered, the registry knows exactly the header ids
      seen so far and every id block name. */
  lemma {:induction false} RegistryKeys(events: seq<Event>, names: seq<string>)
    requires events != []
    ensures BuildRegistry(events, names).Keys == HeaderIds(events) + set k | k in names
    decreases |events|
  {
    var front := events[..|events| - 1];
    HeaderIdsSnoc(events);
    if front != [] {
      RegistryKeys(front, names);
    } else {
      assert HeaderIds(front) == {};
    }
  }

  /** A header id that names no id block maps to the number of the last header
      carrying that id. */
  lemma {:induction false} RegistryHeaderId(events: seq<Event>, names: seq<string>, i: nat, h: string)
    requires i < |events| && events[i].id == Some(h) && h !in names
    requires forall j :: i < j < |events| ==> events[j].id != Some(h)
    ensures h in BuildRegistry(events, names) && BuildRegistry(events, names)[h] == events[i].number
    decreases |events|
  {
    var front := events[..|events| - 1];
    if i < |front| {
      assert front[i] == events[i];
      forall j | i < j < |front| ensures front[j].id != Some(h) {
        assert front[j] == events[j];
      }
      RegistryHeaderId(front, names, i, h);
    }
  }

  /** A name that is neither a header id nor an id block name is unknown. */
  lemma RegistryUnknown(events: seq<Event>, names: seq<string>, k: string)
    requires k !in names && forall i :: 0 <= i < |events| ==> events[i].id != Some(k)
    ensures k !in BuildRegistry(events, names)
  {
    if events != [] {
      RegistryKeys(events, names);
    }
  }
}

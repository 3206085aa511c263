/** The tag, entity and link indexes of the wiki, edited in place each time a note is ingested. */
module WikiIndexer {
  import opened Base

  /** Names (tags or entities) with the notes listed under each. */
  type Lists = map<string, seq<string>>

  datatype Links = Links(outbound: seq<string>, inbound: seq<string>)

  function Under(ix: Lists, name: string): seq<string> {
    if name in ix then ix[name] else []
  }

  function LinksOf(ix: map<string, Links>, note: string): Links {
    if note in ix then ix[note] else Links([], [])
  }

  function Added(notes: seq<string>, note: string): seq<string> {
    if note in notes then notes else notes + [note]
  }

  // ---- Tags and entities ----

  function Unlisted(ix: Lists, note: string): Lists {
    map name | name in ix :: RemoveFirst(ix[name], note)
  }

  function ListedUnder(ix: Lists, note: string, names: seq<string>): Lists {
    if |names| == 0 then ix
    else
      var before, name := ListedUnder(ix, note, names[..|names| - 1]), names[|names| - 1];
      before[name := Added(Under(before, name), note)]
  }

  function UpsertNames(ix: Lists, note: string, names: seq<string>): Lists {
    ListedUnder(Unlisted(ix, note), note, names)
  }

  class NameIndex {
    var lists: Lists

    constructor ()
      ensures lists == map[]
    {
      lists := map[];
    }

    method Upsert(note: string, names: seq<string>)
      modifies this
      ensures lists == UpsertNames(old(lists), note, names)
    {
      RemoveStale(note);
      for i := 0 to |names|
        invariant lists == ListedUnder(Unlisted(old(lists), note), note, names[..i])
      {
        assert names[..i + 1][..i] == names[..i];
        if names[i] !in lists { lists := lists[names[i] := []]; }
        if note !in lists[names[i]] { lists := lists[names[i] := lists[names[i]] + [note]]; }
      }
      assert names[..|names|] == names;
    }

    method RemoveStale(note: string)
      modifies this
      ensures lists == Unlisted(old(lists), note)
    {
      var todo := lists.Keys;
      while todo != {}
        invariant todo <= lists.Keys == old(lists).Keys
        invariant forall name <- lists :: lists[name] == if name in todo then old(lists)[name] else RemoveFirst(old(lists)[name], note)
        decreases |todo|
      {
        var name :| name in todo;
        lists := lists[name := RemoveFirst(lists[name], note)];
        todo := todo - {name};
      }
    }
  }

  // ---- Links ----

  function WithoutInbound(l: Links, note: string): Links {
    l.(inbound := RemoveFirst(l.inbound, note))
  }

  function Unlinked(ix: map<string, Links>, note: string): map<string, Links> {
    map n | n in ix :: WithoutInbound(ix[n], note)
  }

  function LinkedTo(ix: map<string, Links>, note: string, targets: seq<string>): map<string, Links> {
    if |targets| == 0 then ix
    else
      var before, t := LinkedTo(ix, note, targets[..|targets| - 1]), targets[|targets| - 1];
      before[t := LinksOf(before, t).(inbound := Added(LinksOf(before, t).inbound, note))]
  }

  function UpsertLinks(ix: map<string, Links>, note: string, outbound: seq<string>): map<string, Links> {
    var clean := Unlinked(ix, note);
    LinkedTo(clean[note := Links(outbound, LinksOf(clean, note).inbound)], note, outbound)
  }

  class LinkIndex {
    var links: map<string, Links>

    constructor ()
      ensures links == map[]
    {
      links := map[];
    }

    method Upsert(note: string, outbound: seq<string>)
      modifies this
      ensures links == UpsertLinks(old(links), note, outbound)
    {
      RemoveStale(note);
      links := links[note := Links(outbound, LinksOf(links, note).inbound)];
      ghost var own := links;
      for i := 0 to |outbound|
        invariant links == LinkedTo(own, note, outbound[..i])
      {
        assert outbound[..i + 1][..i] == outbound[..i];
        var target := outbound[i];
        if target !in links { links := links[target := Links([], [])]; }
        if note !in links[target].inbound {
          links := links[target := links[target].(inbound := links[target].inbound + [note])];
        }
      }
      assert outbound[..|outbound|] == outbound;
    }

    method RemoveStale(note: string)
      modifies this
      ensures links == Unlinked(old(links), note)
    {
      var todo := links.Keys;
      while todo != {}
        invariant todo <= links.Keys == old(links).Keys
        invariant forall n <- links :: links[n] == (if n in todo then old(links)[n] else WithoutInbound(old(links)[n], note))
        decreases |todo|
      {
        var n :| n in todo;
        links := links[n := links[n].(inbound := RemoveFirst(links[n].inbound, note))];
        todo := todo - {n};
      }
    }
  }

  // ---- Runs ----

  /** A note is ingested with its names or its outbound links. */
  datatype Upsert = Upsert(note: string, names: seq<string>)

  function RunNames(ops: seq<Upsert>): Lists {
    if |ops| == 0 then map[] else UpsertNames(RunNames(ops[..|ops| - 1]), ops[|ops| - 1].note, ops[|ops| - 1].names)
  }

  function RunLinks(ops: seq<Upsert>): map<string, Links> {
    if |ops| == 0 then map[] else UpsertLinks(RunLinks(ops[..|ops| - 1]), ops[|ops| - 1].note, ops[|ops| - 1].names)
  }

  /** The names a note was last ingested with. */
  function Latest(ops: seq<Upsert>, note: string): seq<string> {
    if |ops| == 0 then []
    else if ops[|ops| - 1].note == note then ops[|ops| - 1].names
    else Latest(ops[..|ops| - 1], note)
  }

  /** How often a note is listed. */
  function Occurrences(notes: seq<string>, note: string): nat {
    multiset(notes)[note]
  }

  lemma RemoveOccurrences(notes: seq<string>, x: string, note: string)
    ensures Occurrences(RemoveFirst(notes, x), note) == if x == note && note in notes then Occurrences(notes, note) - 1 else Occurrences(notes, note)
    ensures Occurrences(notes, note) > 0 <==> note in notes
  {
    RemoveFirstCounts(notes, x);
  }

  lemma AddOccurrences(notes: seq<string>, x: string, note: string)
    ensures Occurrences(Added(notes, x), note) == if x == note && note !in notes then 1 else Occurrences(notes, note)
  {
  }

  lemma {:induction false} ListedOccurrences(ix: Lists, x: string, names: seq<string>, name: string, note: string)
    ensures Occurrences(Under(ListedUnder(ix, x, names), name), note) ==
            if x == note && name in names && Occurrences(Under(ix, name), note) == 0 then 1 else Occurrences(Under(ix, name), note)
  {
    hide Occurrences, Added;
    if |names| > 0 {
      var front, last := names[..|names| - 1], names[|names| - 1];
      assert names == front + [last];
      ListedOccurrences(ix, x, front, name, note);
      var notes := Under(ListedUnder(ix, x, front), name);
      AddOccurrences(notes, x, note);
      RemoveOccurrences(notes, x, note);
    }
  }

  /** After any run a note is listed under a name exactly once if the name was in the note's last list, and otherwise not at all. */
  lemma {:induction false} NamesAreLatest(ops: seq<Upsert>, name: string, note: string)
    ensures Occurrences(Under(RunNames(ops), name), note) == if name in Latest(ops, note) then 1 else 0
  {
    hide Occurrences, ListedUnder;
    if |ops| > 0 {
      var before, op := RunNames(ops[..|ops| - 1]), ops[|ops| - 1];
      NamesAreLatest(ops[..|ops| - 1], name, note);
      RemoveOccurrences(Under(before, name), op.note, note);
      ListedOccurrences(Unlisted(before, op.note), op.note, op.names, name, note);
    } else {
      NoOccurrences(note);
    }
  }

  lemma NoOccurrences(note: string)
    ensures Occurrences([], note) == 0 && RemoveFirst([], note) == []
  {
  }

  lemma {:induction false} LinkedOccurrences(ix: map<string, Links>, x: string, targets: seq<string>, b: string, a: string)
    ensures var r, was := LinksOf(LinkedTo(ix, x, targets), b), LinksOf(ix, b);
            && r.outbound == was.outbound
            && Occurrences(r.inbound, a) == if x == a && b in targets && Occurrences(was.inbound, a) == 0 then 1 else Occurrences(was.inbound, a)
  {
    hide Occurrences, Added;
    if |targets| > 0 {
      var front, last := targets[..|targets| - 1], targets[|targets| - 1];
      assert targets == front + [last];
      LinkedOccurrences(ix, x, front, b, a);
      var inbound := LinksOf(LinkedTo(ix, x, front), b).inbound;
      AddOccurrences(inbound, x, a);
      RemoveOccurrences(inbound, x, a);
    }
  }

  /**
   After any run, self-links included: the outbound links of a note are its last list, and a note is
   among the inbound links of another exactly once if it links to it, and otherwise not at all.
   */
  lemma {:induction false} LinksAreSymmetric(ops: seq<Upsert>, a: string, b: string)
    ensures var ix := RunLinks(ops);
            && LinksOf(ix, a).outbound == Latest(ops, a)
            && Occurrences(LinksOf(ix, b).inbound, a) == if b in LinksOf(ix, a).outbound then 1 else 0
  {
    hide Occurrences, LinkedTo;
    if |ops| > 0 {
      var before, op := RunLinks(ops[..|ops| - 1]), ops[|ops| - 1];
      LinksAreSymmetric(ops[..|ops| - 1], a, b);
      var clean := Unlinked(before, op.note);
      var own := clean[op.note := Links(op.names, LinksOf(clean, op.note).inbound)];
      RemoveOccurrences(LinksOf(before, b).inbound, op.note, a);
      NoOccurrences(op.note);
      LinkedOccurrences(own, op.note, op.names, b, a);
      LinkedOccurrences(own, op.note, op.names, a, a);
    } else {
      NoOccurrences(a);
    }
  }
}

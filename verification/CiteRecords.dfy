/**
 Citation records and the lockfile document they live in. JSON is a faithful
 encoding here: what was encoded decodes to itself.
 */
module CiteRecords {
  import opened Basics

  /** The accessed date: a day number, or text that does not parse as a date. */
  datatype AccessDate = NoDate | Unparseable | Day(n: int)

  datatype Record = Record(
    id: string,
    source: string,
    accessed: AccessDate,
    claimClass: string,
    quote: string,
    snapshot: string,
    sha256: string,
    doi: string)

  /** One element of the records array: what its id reads as, and what it reads as a whole. */
  datatype Raw = Raw(id: Option<string>, rec: Option<Record>)

  type Doc = seq<Raw>

  function Encoded(rec: Record): Raw {
    Raw(Some(rec.id), Some(rec))
  }

  /** The elements that do not carry this id. */
  function Without(doc: Doc, id: string): (r: Doc)
    ensures forall raw :: raw in r <==> raw in doc && raw.id != Some(id)
  {
    if doc == [] then []
    else if doc[0].id == Some(id) then Without(doc[1..], id)
    else [doc[0]] + Without(doc[1..], id)
  }

  function Upsert(doc: Doc, rec: Record): Doc {
    Without(doc, rec.id) + [Encoded(rec)]
  }

  lemma {:induction false} WithoutAppend(doc: Doc, raw: Raw, id: string)
    ensures Without(doc + [raw], id) == Without(doc, id) + if raw.id == Some(id) then [] else [raw]
  {
    if doc == [] {
      assert doc + [raw] == [raw];
    } else {
      assert (doc + [raw])[1..] == doc[1..] + [raw];
      WithoutAppend(doc[1..], raw, id);
    }
  }

  lemma {:induction false} WithoutConcat(a: Doc, b: Doc, id: string)
    ensures Without(a + b, id) == Without(a, id) + Without(b, id)
  {
    if b == [] {
      assert a + b == a;
    } else {
      var rest, last := b[..|b| - 1], b[|b| - 1];
      assert a + b == (a + rest) + [last] && b == rest + [last];
      WithoutConcat(a, rest, id);
      WithoutAppend(a + rest, last, id);
      WithoutAppend(rest, last, id);
    }
  }

  lemma {:induction false} NothingDropped(doc: Doc, id: string)
    requires forall raw :: raw in doc ==> raw.id != Some(id)
    ensures Without(doc, id) == doc
  {
    if doc != [] {
      NothingDropped(doc[1..], id);
    }
  }

  /**
   In the usual case of one element with the id, the upsert drops it, keeps the
   others in order and puts the record last; without one it only appends.
   */
  lemma UpsertOrder(before: Doc, same: Raw, after: Doc, rec: Record)
    requires forall raw :: raw in before || raw in after ==> raw.id != Some(rec.id)
    requires same.id == Some(rec.id)
    ensures Upsert(before + [same] + after, rec) == before + after + [Encoded(rec)]
    ensures Upsert(before, rec) == before + [Encoded(rec)]
  {
    NothingDropped(before, rec.id);
    NothingDropped(after, rec.id);
    WithoutAppend(before, same, rec.id);
    WithoutConcat(before + [same], after, rec.id);
  }

  /** The loop of upsert: keep what has another id, then append. */
  method UpsertRecords(doc: Doc, rec: Record) returns (kept: Doc)
    ensures kept == Upsert(doc, rec)
  {
    kept := [];
    for i := 0 to |doc|
      invariant kept == Without(doc[..i], rec.id)
    {
      assert doc[..i + 1] == doc[..i] + [doc[i]];
      WithoutAppend(doc[..i], doc[i], rec.id);
      if doc[i].id.Some? && doc[i].id.value == rec.id {
        continue;
      }
      kept := kept + [doc[i]];
    }
    assert doc[..|doc|] == doc;
    kept := kept + [Encoded(rec)];
  }

  /** No two elements carry the same readable id. */
  ghost predicate UniqueIds(doc: Doc) {
    forall i, j :: 0 <= i < j < |doc| && doc[i].id.Some? ==> doc[i].id != doc[j].id
  }

  lemma {:induction false} WithoutKeepsUnique(doc: Doc, id: string)
    requires UniqueIds(doc)
    ensures UniqueIds(Without(doc, id))
  {
    if doc != [] {
      WithoutKeepsUnique(doc[1..], id);
      var rest := Without(doc[1..], id);
      forall raw | raw in rest && doc[0].id.Some? ensures raw.id != doc[0].id {
        var j :| 0 <= j < |doc[1..]| && doc[1..][j] == raw;
        assert doc[j + 1] == raw;
      }
      forall j | 0 <= j < |rest| && doc[0].id.Some? ensures rest[j].id != doc[0].id {
        assert rest[j] in rest;
      }
    }
  }

  /** An upsert leaves ids unique, holds the new record, and keeps every other id's elements. */
  lemma {:induction false} UpsertProperties(doc: Doc, rec: Record)
    requires UniqueIds(doc)
    ensures UniqueIds(Upsert(doc, rec))
    ensures Encoded(rec) in Upsert(doc, rec)
    ensures forall raw: Raw :: raw.id != Some(rec.id) ==> (raw in Upsert(doc, rec) <==> raw in doc)
    ensures forall raw: Raw :: raw in Upsert(doc, rec) && raw.id == Some(rec.id) ==> raw == Encoded(rec)
  {
    WithoutKeepsUnique(doc, rec.id);
    var kept := Without(doc, rec.id);
    forall i | 0 <= i < |kept| ensures kept[i].id != Some(rec.id) {
      assert kept[i] in kept;
    }
  }
}

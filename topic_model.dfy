/**
 * The topic pool: the `Repository` schema and its collection `Repository`, and the
 * allocation step the contribution routes run on it (`aggregate` with `$match` and
 * `$sample`, then `findByIdAndUpdate` to `'Allotted'`).
 */
module TopicModel {
  import opened Wrappers
  import opened Strings
  import opened Json
  import opened Ids

  /**
   * A topic's status. The schema's enum declares only `Complete` and `Incomplete`; the
   * allocation writes `Allotted` through an update that does not run validators, so stored
   * topics can hold all three.
   */
  datatype Status = Incomplete | Allotted | Complete

  /** The values the schema's enum admits. */
  predicate Declared(s: Status) {
    s != Allotted
  }

  datatype Topic = Topic(id: string, topicName: string, category: string, status: Status,
                         createdAt: nat, updatedAt: nat)

  /** The collection as a map from `_id` to document. */
  type Topics = map<string, Topic>


  /** What the schema guarantees of every stored topic: required, trimmed name and category. */
  ghost predicate TopicsInv(m: Topics) {
    forall id :: id in m ==>
      && m[id].id == id && IsObjectId(id)
      && m[id].topicName != "" && Trimmed(m[id].topicName)
      && m[id].category != "" && Trimmed(m[id].category)
  }

  /**
   * `Repository.create({ topicName, category })` with id `id`: the trim setters run, the
   * `required` validators refuse a value that trims to '', and the status takes its default.
   */
  function NewTopic(id: string, topicName: string, category: string, now: nat): (r: Option<Topic>)
    ensures r.Some? <==> Trim(topicName) != "" && Trim(category) != ""
    ensures r.Some? ==> r.value.id == id && r.value.topicName == Trim(topicName) && r.value.category == Trim(category)
    ensures r.Some? ==> r.value.status == Incomplete && Declared(r.value.status)
    ensures r.Some? ==> r.value.createdAt == now == r.value.updatedAt
  {
    var name := Trim(topicName);
    var cat := Trim(category);
    if name == "" || cat == "" then None else Some(Topic(id, name, cat, Incomplete, now, now))
  }

  /**
   * `_id.toString().substring(0, 8).toUpperCase()`: the short code of a topic, its id's
   * first eight characters in capitals.
   */
  function TopicCode(id: string): (code: string)
    requires IsObjectId(id)
    ensures |code| == 8
    ensures forall i :: 0 <= i < 8 ==> code[i] == UpperChar(id[i])
    ensures forall i :: 0 <= i < 8 ==> '0' <= code[i] <= '9' || 'A' <= code[i] <= 'F'
  {
    ToUpper(id[..8])
  }

  /**
   * The `$match` stage: an `Incomplete` topic whose category equals one of the submitted
   * category values. The aggregation does not cast, so only string entries can match.
   */
  predicate Claimable(t: Topic, cats: seq<Value>) {
    t.status == Incomplete && Str(t.category) in cats
  }

  /**
   * What `$sample: { size: 1 }` may return: some claimable topic's id, or nothing when
   * there is none. No distribution is modelled.
   */
  predicate ValidPick(m: Topics, cats: seq<Value>, pick: Option<string>) {
    match pick
    case Some(id) => id in m && Claimable(m[id], cats)
    case None => forall id :: id in m ==> !Claimable(m[id], cats)
  }

  /** Where the allocation's `try` block may fail: the aggregation, or the update after it. */
  datatype TopicFault = NoFault | SampleFails | ClaimFails

  /** The pool after the allocation and the topic the submission reports as assigned. */
  datatype Allocation = Allocation(topics: Topics, selected: Option<Topic>)

  /**
   * The allocation block of `POST /contributions`: the sampled topic is marked `Allotted`
   * (the timestamps plugin sets `updatedAt`). A failing aggregation leaves no selection; a
   * failing update leaves the selection already made but the pool unchanged. Neither
   * escapes the `catch`.
   */
  function Allocate(m: Topics, cats: seq<Value>, pick: Option<string>, now: nat, fault: TopicFault): (r: Allocation)
    requires fault.SampleFails? || ValidPick(m, cats, pick)
    ensures fault.SampleFails? || pick.None? ==> r == Allocation(m, None)
    ensures !fault.SampleFails? && pick.Some? ==> r.selected == Some(m[pick.value])
    ensures fault.ClaimFails? ==> r.topics == m
    ensures fault.NoFault? && pick.Some? ==> r.topics.Keys == m.Keys && r.topics[pick.value].status == Allotted
    ensures fault.NoFault? && pick.Some? ==> forall id :: id in m && id != pick.value ==> r.topics[id] == m[id]
  {
    if fault.SampleFails? || pick.None? then Allocation(m, None)
    else
      var t := m[pick.value];
      if fault.ClaimFails? then Allocation(m, Some(t))
      else Allocation(m[pick.value := t.(status := Allotted, updatedAt := now)], Some(t))
  }

  /** The ids of the topics still waiting to be allotted. */
  function Pool(m: Topics): set<string> {
    set id | id in m && m[id].status == Incomplete
  }

  /**
   * An allocation that reports a topic took it from the pool: it was `Incomplete` and of a
   * submitted category, and without a fault exactly that topic leaves the pool.
   */
  lemma AllocateTakesFromPool(m: Topics, cats: seq<Value>, pick: Option<string>, now: nat, fault: TopicFault)
    requires TopicsInv(m) && (fault.SampleFails? || ValidPick(m, cats, pick))
    ensures var r := Allocate(m, cats, pick, now, fault);
            && (r.selected.Some? ==> r.selected.value.id in Pool(m) && Str(r.selected.value.category) in cats)
            && (fault.NoFault? && r.selected.Some? ==> Pool(r.topics) == Pool(m) - {r.selected.value.id})
            && (r.selected.None? || !fault.NoFault? ==> Pool(r.topics) == Pool(m))
  {
    var r := Allocate(m, cats, pick, now, fault);
    if fault.NoFault? && r.selected.Some? {
      var id := pick.value;
      forall x ensures x in Pool(r.topics) <==> x in Pool(m) - {id} {
        if x != id && x in m { assert r.topics[x] == m[x]; }
      }
    }
  }

  /** A topic an allocation reports is the stored document it claimed, with a valid id. */
  lemma SelectedIsStored(m: Topics, cats: seq<Value>, pick: Option<string>, now: nat, fault: TopicFault)
    requires TopicsInv(m) && (fault.SampleFails? || ValidPick(m, cats, pick))
    ensures var sel := Allocate(m, cats, pick, now, fault).selected;
            sel.Some? ==> sel.value.id in m && m[sel.value.id] == sel.value && IsObjectId(sel.value.id)
  {
  }

  /** Allocating keeps the schema's guarantees on every stored topic. */
  lemma AllocateKeepsInv(m: Topics, cats: seq<Value>, pick: Option<string>, now: nat, fault: TopicFault)
    requires TopicsInv(m) && (fault.SampleFails? || ValidPick(m, cats, pick))
    ensures TopicsInv(Allocate(m, cats, pick, now, fault).topics)
  {
  }

  /** One submission's allocation input: the categories sent and what `$sample` returned. */
  datatype Round = Round(cats: seq<Value>, pick: Option<string>)

  /** Whether every round's pick is one `$sample` could return at that point of the run. */
  ghost predicate ValidRun(m: Topics, rounds: seq<Round>, now: nat) {
    rounds == [] ||
    (ValidPick(m, rounds[0].cats, rounds[0].pick)
     && ValidRun(Allocate(m, rounds[0].cats, rounds[0].pick, now, NoFault).topics, rounds[1..], now))
  }

  /** The topics a run of fault-free allocations assigns, in order. */
  function Assigned(m: Topics, rounds: seq<Round>, now: nat): seq<string>
    requires ValidRun(m, rounds, now)
  {
    if rounds == [] then []
    else
      var a := Allocate(m, rounds[0].cats, rounds[0].pick, now, NoFault);
      (if a.selected.Some? then [a.selected.value.id] else []) + Assigned(a.topics, rounds[1..], now)
  }

  /**
   * However many submissions run one after another, each assigned topic came from the
   * pool, no topic is assigned twice, and so no more topics are assigned than were waiting.
   */
  lemma {:induction false} AtMostOncePerTopic(m: Topics, rounds: seq<Round>, now: nat)
    requires TopicsInv(m) && ValidRun(m, rounds, now)
    ensures var ids := Assigned(m, rounds, now);
            && (forall i :: 0 <= i < |ids| ==> ids[i] in Pool(m))
            && (forall i, j :: 0 <= i < j < |ids| ==> ids[i] != ids[j])
            && |ids| <= |Pool(m)|
  {
    if rounds != [] {
      var r := rounds[0];
      var a := Allocate(m, r.cats, r.pick, now, NoFault);
      AllocateTakesFromPool(m, r.cats, r.pick, now, NoFault);
      AllocateKeepsInv(m, r.cats, r.pick, now, NoFault);
      AtMostOncePerTopic(a.topics, rounds[1..], now);
      var rest := Assigned(a.topics, rounds[1..], now);
      if a.selected.Some? {
        ConsDistinctFromPool(Pool(m), a.selected.value.id, rest);
      } else {
        assert Pool(a.topics) == Pool(m);
      }
    }
  }

  /** Putting a pool member in front of distinct ids drawn from the rest of the pool keeps them distinct. */
  lemma ConsDistinctFromPool(pool: set<string>, id: string, rest: seq<string>)
    requires id in pool
    requires forall i :: 0 <= i < |rest| ==> rest[i] in pool - {id}
    requires forall i, j :: 0 <= i < j < |rest| ==> rest[i] != rest[j]
    requires |rest| <= |pool - {id}|
    ensures var ids := [id] + rest;
            && (forall i :: 0 <= i < |ids| ==> ids[i] in pool)
            && (forall i, j :: 0 <= i < j < |ids| ==> ids[i] != ids[j])
            && |ids| <= |pool|
  {
    var ids := [id] + rest;
    forall i, j | 0 <= i < j < |ids| ensures ids[i] != ids[j] {
      assert ids[j] == rest[j - 1];
      if i > 0 { assert ids[i] == rest[i - 1]; }
    }
  }

  /** The collection `Repository`, updated in place by the contribution and admin routes. */
  class TopicCollection {
    var docs: Topics

    ghost predicate Valid()
      reads this
    {
      TopicsInv(docs)
    }

    constructor ()
      ensures Valid() && docs == map[]
    {
      docs := map[];
    }

    /** The `$match` and `$sample` aggregation: one claimable topic, chosen freely, or none. */
    method Sample(cats: seq<Value>) returns (pick: Option<string>)
      requires Valid()
      ensures ValidPick(docs, cats, pick)
    {
      if exists id :: id in docs && Claimable(docs[id], cats) {
        var id :| id in docs && Claimable(docs[id], cats);
        pick := Some(id);
      } else {
        pick := None;
      }
    }

    /** `findByIdAndUpdate(id, { status })` without validators: sets only the status and `updatedAt`. */
    method SetStatus(id: string, status: Status, now: nat)
      requires Valid() && id in docs
      modifies this
      ensures Valid()
      ensures docs == old(docs)[id := old(docs)[id].(status := status, updatedAt := now)]
    {
      docs := docs[id := docs[id].(status := status, updatedAt := now)];
    }

    /** `Repository.create(t)` of a document built by NewTopic under a fresh id. */
    method Create(t: Topic)
      requires Valid() && IsObjectId(t.id) && t.id !in docs
      requires t.topicName != "" && Trimmed(t.topicName) && t.category != "" && Trimmed(t.category)
      modifies this
      ensures Valid()
      ensures docs == old(docs)[t.id := t]
    {
      docs := docs[t.id := t];
    }

    /** `findByIdAndDelete(id)`: removes that topic and nothing else. */
    method Delete(id: string)
      requires Valid()
      modifies this
      ensures Valid()
      ensures docs == old(docs) - {id}
    {
      docs := docs - {id};
    }
  }
}

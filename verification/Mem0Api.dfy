/** The mem0 server, as far as the adapter uses it: one table of records shared by every tenant. It is the
    assumed part, and says what each REST call does to that table. */
module Mem0Api {
  import opened Results
  import opened Values

  datatype Rec = Rec(
    userId: string,
    memory: string,
    agentId: Option<string>,
    runId: Option<string>,
    metadata: Fields,
    createdAt: string,
    updatedAt: Option<string>
  )

  // ---------- The body of a POST ----------

  /** What a body asks the server to store as it is. */
  datatype Post = Post(userId: string, content: string, agentId: Option<string>, runId: Option<string>, metadata: Fields)

  /** How the server reads a body: a text to store as it is, one to extract facts from, or no request at all. */
  datatype Reading = Verbatim(post: Post) | Extraction(userId: string) | Malformed

  /** How the server reads a text where it wants a flag. */
  type FlagText = string -> Option<bool>

  /** The one message that an add sends. */
  function Message(content: string): Value {
    List([Object(map["role" := Str("user"), "content" := Str(content)], "")], "")
  }

  function MessageText(v: Value): Option<string> {
    if v.List? && |v.items| == 1 && v.items[0].Object? && "content" in v.items[0].fields && v.items[0].fields["content"].Str?
    then Some(v.items[0].fields["content"].text) else None
  }

  function Flag(flags: FlagText, v: Value): Option<bool> {
    if v.Bool? then Some(v.flag) else if v.Str? then flags(v.text) else None
  }

  function TextOf(body: Fields, key: string): Option<string> {
    if key in body && body[key].Str? then Some(body[key].text) else None
  }

  function ReadBody(flags: FlagText, body: Fields): Reading {
    var content := if "messages" in body then MessageText(body["messages"]) else None;
    var user := TextOf(body, "user_id");
    var infer := if "infer" in body then Flag(flags, body["infer"]) else Some(true);
    var metadata := if "metadata" in body then body["metadata"] else Object(map[], "");
    if content.None? || user.None? || infer.None? || !metadata.Object? then Malformed
    else if infer.value then Extraction(user.value)
    else Verbatim(Post(user.value, content.value, TextOf(body, "agent_id"), TextOf(body, "run_id"), metadata.fields))
  }

  // ---------- The table ----------

  ghost predicate NoRepeats(order: seq<string>) {
    forall i, j :: 0 <= i < j < |order| ==> order[i] != order[j]
  }

  /** The order lists every record once, and nothing else. */
  ghost predicate Covers(order: seq<string>, records: map<string, Rec>) {
    NoRepeats(order) && forall id :: id in records <==> id in order
  }

  function Kept(order: seq<string>, id: string): seq<string> {
    if order == [] then []
    else if order[0] == id then Kept(order[1..], id)
    else [order[0]] + Kept(order[1..], id)
  }

  lemma {:induction false} KeptAre(order: seq<string>, id: string)
    requires NoRepeats(order)
    ensures NoRepeats(Kept(order, id)) && forall k :: k in Kept(order, id) <==> k in order && k != id
    decreases |order|
  {
    if order != [] {
      KeptAre(order[1..], id);
      assert order == [order[0]] + order[1..];
      var rest := Kept(order[1..], id);
      forall i | 0 <= i < |rest|
        ensures rest[i] != order[0]
      {
        assert rest[i] in order[1..];
      }
    }
  }

  function Merged(r: Rec, text: Option<string>, metadata: Fields, now: string): Rec {
    r.(memory := OrElse(text, r.memory), metadata := r.metadata + metadata, updatedAt := Some(now))
  }

  function Stored(post: Post, now: string): Rec {
    Rec(post.userId, post.content, post.agentId, post.runId, post.metadata, now, None)
  }

  /** Another user's records are as they were, byte for byte. */
  ghost predicate OthersKept(before: map<string, Rec>, after: map<string, Rec>, userId: string) {
    && (forall id :: id in before && before[id].userId != userId ==> id in after && after[id] == before[id])
    && (forall id :: id in after && after[id].userId != userId ==> id in before)
  }

  class Mem0Server {
    const flags: FlagText
    var records: map<string, Rec>
    var order: seq<string>

    ghost predicate Valid()
      reads this
    {
      Covers(order, records)
    }

    constructor (f: FlagText)
      ensures Valid() && records == map[] && this.flags == f
    {
      flags, records, order := f, map[], [];
    }

    /** POST /memories: one record for a text to store as it is, and a refusal of a malformed body. What
        extraction does to the user's own records is not said. */
    method PostMemory(body: Fields, id: string, now: string) returns (taken: bool)
      requires Valid() && id !in records
      modifies this
      ensures Valid()
      ensures
        match ReadBody(flags, body)
        case Malformed => !taken && records == old(records) && order == old(order)
        case Verbatim(post) => taken && records == old(records)[id := Stored(post, now)] && order == old(order) + [id]
        case Extraction(userId) => OthersKept(old(records), records, userId)
    {
      match ReadBody(flags, body)
      case Malformed => taken := false;
      case Extraction(_) => taken := true;
      case Verbatim(post) =>
        records := records[id := Stored(post, now)];
        order := order + [id];
        taken := true;
    }

    /** PUT /memories/{id}: replaces the text if given, and merges the metadata into what is stored. */
    method PutMemory(id: string, text: Option<string>, metadata: Fields, now: string)
      requires Valid() && id in records
      modifies this`records
      ensures Valid() && records == old(records)[id := Merged(old(records)[id], text, metadata, now)]
    {
      records := records[id := Merged(records[id], text, metadata, now)];
    }

    /** DELETE /memories/{id}, whoever owns it. */
    method DeleteMemory(id: string)
      requires Valid()
      modifies this
      ensures Valid() && records == old(records) - {id} && order == Kept(old(order), id)
    {
      KeptAre(order, id);
      records := records - {id};
      order := Kept(order, id);
    }
  }
}

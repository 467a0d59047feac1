/** The fan-out envelope: what a sender puts on the channel and what a listener makes of it. */
module Envelope {
  import opened Common
  import Uuid

  /** A decoded JSON document; numbers keep the spelling Python prints for them, objects the order of their keys. */
  datatype Json =
    | Null
    | Bool(b: bool)
    | Num(repr: string)
    | Str(s: string)
    | Arr(items: seq<Json>)
    | Obj(keys: seq<string>, fields: map<string, Json>)

  datatype Envelope = Envelope(targets: seq<nat>, payload: string, origin: Option<string>)

  /** str(u) of a scalar; the printed form of a list or an object is never a UUID. */
  function PrintedScalar(j: Json): Option<string> {
    match j
    case Null => Some("None")
    case Bool(b) => Some(if b then "True" else "False")
    case Num(repr) => Some(repr)
    case Str(s) => Some(s)
    case Arr(_) => None
    case Obj(_, _) => None
  }

  function ReadUser(j: Json): Option<nat> {
    match PrintedScalar(j)
    case None => None
    case Some(s) => Uuid.FromText(s)
  }

  /** One bad element spoils the list. */
  function ReadUsers(items: seq<Json>): Option<seq<nat>> {
    if items == [] then Some([]) else
      match (ReadUser(items[0]), ReadUsers(items[1..]))
      case (Some(u), Some(rest)) => Some([u] + rest)
      case _ => None
  }

  function Strings(names: seq<string>): seq<Json> {
    seq(|names|, i requires 0 <= i < |names| => Str(names[i]))
  }

  /**
  Iterating the value of target_user_ids: an object yields its keys, and a string its characters, no
  single one of which is a UUID.
  */
  function ReadTargets(j: Json): Option<seq<nat>> {
    match j
    case Arr(items) => ReadUsers(items)
    case Str(s) => if s == "" then Some([]) else None
    case Obj(keys, _) => ReadUsers(Strings(keys))
    case _ => None
  }

  function Parse(j: Json): Option<Envelope> {
    match j
    case Obj(_, fields) =>
      var targets :=
        if "target_user_ids" in fields then ReadTargets(fields["target_user_ids"])
        else if "target_user_id" in fields then
          (match ReadUser(fields["target_user_id"]) case Some(u) => Some([u]) case None => None)
        else None;
      if targets.None? || "payload" !in fields || !fields["payload"].Str? then None
      else
        Some(Envelope(targets.value, fields["payload"].s,
                      if "origin" in fields && fields["origin"].Str? then Some(fields["origin"].s) else None))
    case _ => None
  }

  function Spell(users: seq<nat>): seq<Json> {
    seq(|users|, i requires 0 <= i < |users| => Str(Uuid.ToText(users[i])))
  }

  function Build(origin: string, targets: seq<nat>, payload: string): Json
    requires targets != []
  {
    Obj(["origin", "target_user_ids", "target_user_id", "payload"], map[
      "origin" := Str(origin),
      "target_user_ids" := Arr(Spell(targets)),
      "target_user_id" := Str(Uuid.ToText(targets[0])),
      "payload" := Str(payload)])
  }

  lemma UserRoundTrip(u: nat)
    requires u < Uuid.LIMIT
    ensures ReadUser(Str(Uuid.ToText(u))) == Some(u)
  {
    Uuid.TextRoundTrip(u);
  }

  lemma {:induction false} ReadAll(items: seq<Json>, users: seq<nat>)
    requires |items| == |users| && forall i :: 0 <= i < |items| ==> ReadUser(items[i]) == Some(users[i])
    ensures ReadUsers(items) == Some(users)
  {
    if items != [] {
      ReadAll(items[1..], users[1..]);
      assert [users[0]] + users[1..] == users;
    }
  }

  lemma UsersRoundTrip(users: seq<nat>)
    requires forall i :: 0 <= i < |users| ==> users[i] < Uuid.LIMIT
    ensures ReadUsers(Spell(users)) == Some(users)
  {
    forall i | 0 <= i < |users| ensures ReadUser(Spell(users)[i]) == Some(users[i]) { UserRoundTrip(users[i]); }
    ReadAll(Spell(users), users);
  }

  lemma ParseFields(j: Json, targets: seq<nat>, payload: string, origin: string)
    requires j.Obj? && "target_user_ids" in j.fields && ReadTargets(j.fields["target_user_ids"]) == Some(targets)
    requires "payload" in j.fields && j.fields["payload"] == Str(payload)
    requires "origin" in j.fields && j.fields["origin"] == Str(origin)
    ensures Parse(j) == Some(Envelope(targets, payload, Some(origin)))
  {
  }

  lemma BuiltFields(origin: string, targets: seq<nat>, payload: string)
    requires targets != []
    ensures var j := Build(origin, targets, payload);
            && "target_user_ids" in j.fields && j.fields["target_user_ids"] == Arr(Spell(targets))
            && "payload" in j.fields && j.fields["payload"] == Str(payload)
            && "origin" in j.fields && j.fields["origin"] == Str(origin)
  {
  }

  /** A listener reads back exactly what the sender meant. */
  lemma RoundTrip(origin: string, targets: seq<nat>, payload: string)
    requires targets != [] && forall i :: 0 <= i < |targets| ==> targets[i] < Uuid.LIMIT
    ensures Parse(Build(origin, targets, payload)) == Some(Envelope(targets, payload, Some(origin)))
  {
    UsersRoundTrip(targets);
    BuiltFields(origin, targets, payload);
    ParseFields(Build(origin, targets, payload), targets, payload, origin);
  }

  /** The scalar format of earlier releases. */
  function BuildScalar(origin: string, user: nat, payload: string): Json {
    Obj(["origin", "target_user_id", "payload"], map[
      "origin" := Str(origin), "target_user_id" := Str(Uuid.ToText(user)), "payload" := Str(payload)])
  }

  lemma ScalarFields(origin: string, user: nat, payload: string)
    ensures var j := BuildScalar(origin, user, payload);
            && "target_user_ids" !in j.fields
            && "target_user_id" in j.fields && j.fields["target_user_id"] == Str(Uuid.ToText(user))
            && "payload" in j.fields && j.fields["payload"] == Str(payload)
            && "origin" in j.fields && j.fields["origin"] == Str(origin)
  {
  }

  lemma ParseScalar(j: Json, user: nat, payload: string, origin: string)
    requires j.Obj? && "target_user_ids" !in j.fields
    requires "target_user_id" in j.fields && ReadUser(j.fields["target_user_id"]) == Some(user)
    requires "payload" in j.fields && j.fields["payload"] == Str(payload)
    requires "origin" in j.fields && j.fields["origin"] == Str(origin)
    ensures Parse(j) == Some(Envelope([user], payload, Some(origin)))
  {
  }

  /** It is still understood. */
  lemma LegacyAccepted(origin: string, user: nat, payload: string)
    requires user < Uuid.LIMIT
    ensures Parse(BuildScalar(origin, user, payload)) == Some(Envelope([user], payload, Some(origin)))
  {
    UserRoundTrip(user);
    ScalarFields(origin, user, payload);
    ParseScalar(BuildScalar(origin, user, payload), user, payload, origin);
  }

  /** The users' ids as texts. */
  function Names(users: seq<nat>): seq<string> {
    seq(|users|, i requires 0 <= i < |users| => Uuid.ToText(users[i]))
  }

  /** The keys of an object, in their order, do as targets too, and an empty string as none. */
  lemma KeysAreTargets(users: seq<nat>, fields: map<string, Json>)
    requires forall i :: 0 <= i < |users| ==> users[i] < Uuid.LIMIT
    ensures ReadTargets(Obj(Names(users), fields)) == Some(users) && ReadTargets(Str("")) == Some([])
  {
    assert Strings(Names(users)) == Spell(users);
    UsersRoundTrip(users);
  }

  /** A list of targets is read whole or not at all: one unreadable element drops the envelope for everybody. */
  lemma {:induction false} AllOrNone(items: seq<Json>)
    ensures ReadUsers(items).Some? <==> forall i :: 0 <= i < |items| ==> ReadUser(items[i]).Some?
    ensures ReadUsers(items).Some? ==>
              && |ReadUsers(items).value| == |items|
              && forall i :: 0 <= i < |items| ==> ReadUser(items[i]) == Some(ReadUsers(items).value[i])
  {
    if items != [] {
      AllOrNone(items[1..]);
      assert items == [items[0]] + items[1..];
    }
  }

  lemma ReadUserBelow(j: Json)
    requires ReadUser(j).Some?
    ensures ReadUser(j).value < Uuid.LIMIT
  {
    Uuid.FromTextBelow(PrintedScalar(j).value);
  }

  lemma ReadUsersBelow(items: seq<Json>)
    requires ReadUsers(items).Some?
    ensures forall i :: 0 <= i < |ReadUsers(items).value| ==> ReadUsers(items).value[i] < Uuid.LIMIT
  {
    AllOrNone(items);
    forall i | 0 <= i < |items| ensures ReadUsers(items).value[i] < Uuid.LIMIT { ReadUserBelow(items[i]); }
  }

  lemma ParsedBelow(j: Json)
    requires Parse(j).Some?
    ensures forall i :: 0 <= i < |Parse(j).value.targets| ==> Parse(j).value.targets[i] < Uuid.LIMIT
  {
    if "target_user_ids" in j.fields {
      var ids := j.fields["target_user_ids"];
      if ids.Arr? { ReadUsersBelow(ids.items); }
      if ids.Obj? { ReadUsersBelow(Strings(ids.keys)); }
    } else {
      ReadUserBelow(j.fields["target_user_id"]);
    }
  }

  /** Whatever spelling a listener understood, a sender can say the same again and be understood the same way. */
  lemma Republish(j: Json)
    requires Parse(j).Some? && Parse(j).value.origin.Some? && Parse(j).value.targets != []
    ensures var env := Parse(j).value; Parse(Build(env.origin.value, env.targets, env.payload)) == Some(env)
  {
    var env := Parse(j).value;
    ParsedBelow(j);
    RoundTrip(env.origin.value, env.targets, env.payload);
  }
}

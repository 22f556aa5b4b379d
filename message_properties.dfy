/**
 * The property bag that an Abandon or a DeadLetter sends to the broker.
 * When the disposition carries an error, the bag tags the message with the
 * error's type name under the key "Exceptions", appended with a ':' to the
 * tag the message already carried, so that the tags of successive
 * deliveries form a colon-joined chain.
 *
 * Property values are objects in the system; they are modelled here by the
 * string the tag formatting turns them into, and an error by the name of its
 * type.
 */
module MessageProperties {
  import opened Wrappers

  type Properties = map<string, string>

  const ExceptionsKey: string := "Exceptions"
  const Separator: char := ':'

  /** The bag sent with an Abandon or a DeadLetter for the given incoming user properties and error. */
  function GetProperties(userProperties: Properties, error: Option<string>): (bag: Properties)
    ensures error.None? ==> bag == map[]
    ensures error.Some? ==> bag.Keys == {ExceptionsKey}
    ensures error.Some? ==> bag[ExceptionsKey] == Join(PriorTags(userProperties) + [error.value])
  {
    match error
    case None => map[]
    case Some(typeName) =>
      var exceptions :=
        if ExceptionsKey in userProperties then userProperties[ExceptionsKey] + [Separator] + typeName
        else typeName;
      map[ExceptionsKey := exceptions]
  }

  /** The tag chain a message already carries, as a list of zero or one entries. */
  function PriorTags(userProperties: Properties): seq<string>
  {
    if ExceptionsKey in userProperties then [userProperties[ExceptionsKey]] else []
  }

  /** The names joined with the separator between consecutive ones. */
  function Join(names: seq<string>): string
    requires |names| >= 1
  {
    if |names| == 1 then names[0] else names[0] + [Separator] + Join(names[1..])
  }

  /** A chain cut at every separator; the inverse of Join on names without a separator. */
  function Split(s: string): (parts: seq<string>)
    ensures |parts| >= 1
    ensures |parts| == 1 ==> Separator !in s
    ensures forall i :: 0 <= i < |parts| ==> Separator !in parts[i]
  {
    if |s| == 0 then [""]
    else if s[0] == Separator then [""] + Split(s[1..])
    else
      var rest := Split(s[1..]);
      [[s[0]] + rest[0]] + rest[1..]
  }

  /** Joining the parts of any string gives it back: Split loses nothing. */
  lemma {:induction false} JoinSplit(s: string)
    ensures Join(Split(s)) == s
    decreases |s|
  {
    if |s| > 0 {
      var rest := Split(s[1..]);
      JoinSplit(s[1..]);
      assert [s[0]] + s[1..] == s;
      if s[0] == Separator {
        assert ([""] + rest)[1..] == rest;
      } else {
        var parts := [[s[0]] + rest[0]] + rest[1..];
        assert parts[1..] == rest[1..];
        if |rest| > 1 {
          assert Join(rest) == rest[0] + [Separator] + Join(rest[1..]);
        }
      }
    }
  }

  /** A name without a separator splits to itself, and is kept whole in front of a separator. */
  lemma {:induction false} SplitAfterName(name: string, tail: string)
    requires Separator !in name
    ensures Split(name) == [name]
    ensures Split(name + [Separator] + tail) == [name] + Split(tail)
  {
    if |name| == 0 {
      assert name + [Separator] + tail == [Separator] + tail;
      assert ([Separator] + tail)[1..] == tail;
    } else {
      SplitAfterName(name[1..], tail);
      assert (name + [Separator] + tail)[1..] == name[1..] + [Separator] + tail;
      assert [name[0]] + name[1..] == name;
    }
  }

  /** Splitting a joined chain gives back the names, in order, when no name holds the separator. */
  lemma {:induction false} SplitJoin(names: seq<string>)
    requires |names| >= 1
    requires forall i :: 0 <= i < |names| ==> Separator !in names[i]
    ensures Split(Join(names)) == names
  {
    SplitAfterName(names[0], "");
    if |names| > 1 {
      SplitJoin(names[1..]);
      SplitAfterName(names[0], Join(names[1..]));
      assert [names[0]] + names[1..] == names;
    }
  }

  /**
   * The user properties of the next delivery, assuming the broker merges the
   * bag sent with an Abandon into the properties the message already had.
   */
  function Redelivered(userProperties: Properties, bag: Properties): Properties
  {
    userProperties + bag
  }

  /** The user properties after one abandon per type name, each with that error. */
  function AfterAbandons(userProperties: Properties, typeNames: seq<string>): Properties
    decreases |typeNames|
  {
    if typeNames == [] then userProperties
    else
      var next := Redelivered(userProperties, GetProperties(userProperties, Some(typeNames[0])));
      AfterAbandons(next, typeNames[1..])
  }

  /** Successive abandons build a chain that starts with any earlier tag and lists every error in order. */
  lemma {:induction false} ExceptionsChain(userProperties: Properties, typeNames: seq<string>)
    requires |typeNames| >= 1
    ensures ExceptionsKey in AfterAbandons(userProperties, typeNames)
    ensures AfterAbandons(userProperties, typeNames)[ExceptionsKey] == Join(PriorTags(userProperties) + typeNames)
    decreases |typeNames|
  {
    var first := typeNames[0];
    var next := Redelivered(userProperties, GetProperties(userProperties, Some(first)));
    assert next[ExceptionsKey] == Join(PriorTags(userProperties) + [first]);
    assert PriorTags(next) == [Join(PriorTags(userProperties) + [first])];
    if |typeNames| == 1 {
      assert AfterAbandons(next, []) == next;
    } else {
      var rest := typeNames[1..];
      ExceptionsChain(next, rest);
      assert AfterAbandons(userProperties, typeNames)[ExceptionsKey] == Join([next[ExceptionsKey]] + rest);
      assert Join([next[ExceptionsKey]] + rest) == next[ExceptionsKey] + [Separator] + Join(rest);
      if ExceptionsKey in userProperties {
        var v := userProperties[ExceptionsKey];
        assert PriorTags(userProperties) + typeNames == [v] + ([first] + rest);
        assert ([v] + ([first] + rest))[1..] == [first] + rest;
        assert ([first] + rest)[1..] == rest;
        assert ([v, first])[1..] == [first];
      } else {
        assert PriorTags(userProperties) + typeNames == [first] + rest;
        assert ([first] + rest)[1..] == rest;
      }
    }
  }

  /**
   * A message that had no tag and was abandoned with the given errors carries a
   * chain from which the type names are read back in order.
   */
  lemma TagsReadBack(userProperties: Properties, typeNames: seq<string>)
    requires ExceptionsKey !in userProperties
    requires |typeNames| >= 1
    requires forall i :: 0 <= i < |typeNames| ==> Separator !in typeNames[i]
    ensures ExceptionsKey in AfterAbandons(userProperties, typeNames)
    ensures Split(AfterAbandons(userProperties, typeNames)[ExceptionsKey]) == typeNames
  {
    ExceptionsChain(userProperties, typeNames);
    assert PriorTags(userProperties) + typeNames == typeNames;
    SplitJoin(typeNames);
  }
}

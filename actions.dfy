/** The `|`-separated payloads that carry a UPnP action between two hboxes: the request
    the virtual device on the UPnP server side builds (`UDN|action|name1|value1|...`) and the
    response the control point side sends back (`UDN|action|true|name1|value1|...` or
    `UDN|action|false`); both ends read the argument pairs back two fields at a time. */
module ActionPayloads {
  import opened Wrappers
  import opened Strings

  /** One action argument: its name and its value. */
  datatype Arg = Arg(name: string, value: string)

  /** The argument list flattened into fields: name, value, name, value, ... */
  function EncodePairs(args: seq<Arg>): (fields: seq<string>)
    ensures |fields| == 2 * |args|
    ensures forall i :: 0 <= i < |args| ==> fields[2 * i] == args[i].name && fields[2 * i + 1] == args[i].value
  {
    if |args| == 0 then [] else [args[0].name, args[0].value] + EncodePairs(args[1..])
  }

  /** The source's `for (j = from; j < size; j += 2)` reading `fields[j]` and
      `fields[j + 1]`: the pairs from `from` on, or `None` when an odd field is left over
      and `fields[j + 1]` would be read past the end. */
  function DecodePairs(fields: seq<string>, from: nat): (r: Option<seq<Arg>>)
    ensures r.Some? ==> from >= |fields| || 2 * |r.value| == |fields| - from
    decreases |fields| - from
  {
    if from >= |fields| then Some([])
    else if from + 1 >= |fields| then None
    else
      match DecodePairs(fields, from + 2)
      case None => None
      case Some(rest) => Some([Arg(fields[from], fields[from + 1])] + rest)
  }

  /** Decoding reads back exactly the pairs that were encoded, whatever comes before them. */
  lemma {:induction false} DecodeEncode(prefix: seq<string>, args: seq<Arg>)
    ensures DecodePairs(prefix + EncodePairs(args), |prefix|) == Some(args)
    decreases |args|
  {
    var fields := prefix + EncodePairs(args);
    if |args| > 0 {
      var next := prefix + [args[0].name, args[0].value];
      assert fields == next + EncodePairs(args[1..]) by {
        assert EncodePairs(args) == [args[0].name, args[0].value] + EncodePairs(args[1..]);
      }
      DecodeEncode(next, args[1..]);
      assert fields[|prefix|] == args[0].name && fields[|prefix| + 1] == args[0].value;
      assert args == [Arg(args[0].name, args[0].value)] + args[1..];
    }
  }

  /** A field without the separator, so that it survives splitting. */
  predicate Plain(s: string) {
    '|' !in s
  }

  predicate PlainArgs(args: seq<Arg>) {
    forall i :: 0 <= i < |args| ==> Plain(args[i].name) && Plain(args[i].value)
  }

  /** The request of `virtual_upnp::actionControlReceived`: the UDN of the device, the
      action's name, then its arguments in pairs. */
  function ActionRequest(udn: string, action: string, args: seq<Arg>): string {
    Join([udn, action] + EncodePairs(args), '|')
  }

  /** The reply `invokeAction` builds: the device's UDN and the action's name, then `true`
      and the output arguments in pairs, or `false` alone. */
  function ActionResponse(udn: string, action: string, succeeded: bool, outputs: seq<Arg>): string {
    if succeeded then Join([udn, action, "true"] + EncodePairs(outputs), '|')
    else Join([udn, action, "false"], '|')
  }

  lemma PlainFields(head: seq<string>, args: seq<Arg>)
    requires forall i :: 0 <= i < |head| ==> Plain(head[i])
    requires PlainArgs(args)
    ensures forall i :: 0 <= i < |head + EncodePairs(args)| ==> '|' !in (head + EncodePairs(args))[i]
  {
    var fields := head + EncodePairs(args);
    forall i | 0 <= i < |fields|
      ensures '|' !in fields[i]
    {
      if i >= |head| {
        var k := (i - |head|) / 2;
        assert fields[i] == EncodePairs(args)[i - |head|];
        assert k < |args|;
        if (i - |head|) % 2 == 0 {
          assert fields[i] == args[k].name;
        } else {
          assert fields[i] == args[k].value;
        }
      }
    }
  }

  /** Splitting a request recovers the UDN, the action and the argument fields. */
  lemma RequestFields(udn: string, action: string, args: seq<Arg>)
    requires Plain(udn) && Plain(action) && PlainArgs(args)
    ensures Split(ActionRequest(udn, action, args), '|') == [udn, action] + EncodePairs(args)
  {
    PlainFields([udn, action], args);
    SplitJoin([udn, action] + EncodePairs(args), '|');
  }

  /** Splitting a response recovers the UDN, the action, the outcome and the output fields. */
  lemma ResponseFields(udn: string, action: string, succeeded: bool, outputs: seq<Arg>)
    requires Plain(udn) && Plain(action) && PlainArgs(outputs)
    ensures succeeded ==>
      Split(ActionResponse(udn, action, succeeded, outputs), '|') == [udn, action, "true"] + EncodePairs(outputs)
    ensures !succeeded ==>
      Split(ActionResponse(udn, action, succeeded, outputs), '|') == [udn, action, "false"]
  {
    if succeeded {
      PlainFields([udn, action, "true"], outputs);
      SplitJoin([udn, action, "true"] + EncodePairs(outputs), '|');
    } else {
      PlainFields([udn, action, "false"], []);
      assert [udn, action, "false"] + EncodePairs([]) == [udn, action, "false"];
      SplitJoin([udn, action, "false"], '|');
    }
  }
}

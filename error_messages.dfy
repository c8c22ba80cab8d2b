/** The one-message-per-line rendering of the errors the command-line front end reports. */
module ErrorMessages {

  /** The body of an HTTP error response as `response.json()` sees it: not JSON at all,
      a JSON object (its values kept as their `str()` rendering), or any other JSON value. */
  datatype JsonBody = NotJson | JsonObject(entries: map<string, string>) | OtherJson

  /** One entry of a validation error's `errors()`, reduced to its `msg`. */
  datatype ErrorDetail = ErrorDetail(msg: string)

  /** The errors `get_msg` tells apart; `text` is the error's own `str()`. */
  datatype Error =
    | Group(exceptions: seq<Error>)
    | Validation(details: seq<ErrorDetail>)
    | HttpStatus(body: JsonBody, text: string)
    | Other(text: string)

  /** `"\n".join(lines)`. */
  function JoinLines(lines: seq<string>): string
  {
    if |lines| == 0 then ""
    else if |lines| == 1 then lines[0]
    else lines[0] + "\n" + JoinLines(lines[1..])
  }

  /** `s.split("\n")`: the pieces between newlines, in order. */
  function SplitLines(s: string): (r: seq<string>)
    ensures |r| > 0
  {
    if |s| == 0 then [""]
    else
      var rest := SplitLines(s[1..]);
      if s[0] == '\n' then [""] + rest else [[s[0]] + rest[0]] + rest[1..]
  }

  predicate HasDetail(body: JsonBody)
  {
    body.JsonObject? && "detail" in body.entries
  }

  /** `get_msg`. */
  function GetMsg(err: Error): (r: string)
    ensures err.HttpStatus? && HasDetail(err.body) ==> r == err.body.entries["detail"]
    ensures err.HttpStatus? && !HasDetail(err.body) ==> r == err.text
    ensures err.Other? ==> r == err.text
  {
    match err
    case Group(es) => JoinLines(seq(|es|, i requires 0 <= i < |es| => GetMsg(es[i])))
    case Validation(ds) => JoinLines(seq(|ds|, i requires 0 <= i < |ds| => ds[i].msg))
    case HttpStatus(body, text) => if HasDetail(body) then body.entries["detail"] else text
    case Other(text) => text
  }

  /** The message of each error, in order. */
  function Messages(es: seq<Error>): (r: seq<string>)
    ensures |r| == |es| && forall i | 0 <= i < |es| :: r[i] == GetMsg(es[i])
  {
    seq(|es|, i requires 0 <= i < |es| => GetMsg(es[i]))
  }

  function Concat<T>(xss: seq<seq<T>>): seq<T>
  {
    if |xss| == 0 then [] else xss[0] + Concat(xss[1..])
  }

  /** The errors that are not groups, read left to right through nested groups. */
  function Leaves(err: Error): seq<Error>
  {
    match err
    case Group(es) => Concat(seq(|es|, i requires 0 <= i < |es| => Leaves(es[i])))
    case _ => [err]
  }

  /** Every group holds at least one error, as `ExceptionGroup` demands of its arguments. */
  predicate WellFormed(err: Error)
  {
    match err
    case Group(es) => |es| > 0 && forall i | 0 <= i < |es| :: WellFormed(es[i])
    case _ => true
  }

  lemma {:induction false} JoinLinesAppend(a: seq<string>, b: seq<string>)
    requires |a| > 0 && |b| > 0
    ensures JoinLines(a + b) == JoinLines(a) + "\n" + JoinLines(b)
  {
    if |a| == 1 {
      assert (a + b)[1..] == b;
    } else {
      assert (a + b)[1..] == a[1..] + b;
      JoinLinesAppend(a[1..], b);
    }
  }

  /** Joining joined blocks equals joining their concatenation. */
  lemma {:induction false} JoinLinesConcat(blocks: seq<seq<string>>)
    requires |blocks| > 0 && forall i | 0 <= i < |blocks| :: |blocks[i]| > 0
    ensures |Concat(blocks)| > 0
    ensures JoinLines(seq(|blocks|, i requires 0 <= i < |blocks| => JoinLines(blocks[i])))
            == JoinLines(Concat(blocks))
  {
    var joined := seq(|blocks|, i requires 0 <= i < |blocks| => JoinLines(blocks[i]));
    if |blocks| > 1 {
      var rest := blocks[1..];
      JoinLinesConcat(rest);
      assert joined[1..] == seq(|rest|, i requires 0 <= i < |rest| => JoinLines(rest[i]));
      JoinLinesAppend(blocks[0], Concat(rest));
    } else {
      assert Concat(blocks) == blocks[0] + Concat(blocks[1..]);
      assert Concat(blocks[1..]) == [];
      assert Concat(blocks) == blocks[0];
      assert joined == [JoinLines(blocks[0])];
    }
  }

  lemma {:induction false} MessagesConcat(xss: seq<seq<Error>>)
    ensures Messages(Concat(xss)) == Concat(seq(|xss|, i requires 0 <= i < |xss| => Messages(xss[i])))
  {
    if |xss| > 0 {
      MessagesConcat(xss[1..]);
      var ms := seq(|xss|, i requires 0 <= i < |xss| => Messages(xss[i]));
      assert ms[1..] == seq(|xss[1..]|, i requires 0 <= i < |xss[1..]| => Messages(xss[1..][i]));
      assert Messages(xss[0] + Concat(xss[1..])) == Messages(xss[0]) + Messages(Concat(xss[1..]));
    }
  }

  /** A group's message is the newline-join of the messages of the errors it holds,
      however deeply groups nest. */
  lemma {:induction false} GetMsgFlattensGroups(err: Error)
    requires WellFormed(err)
    ensures |Leaves(err)| > 0
    ensures GetMsg(err) == JoinLines(Messages(Leaves(err)))
  {
    match err
    case Group(es) =>
      var leaves := seq(|es|, i requires 0 <= i < |es| => Leaves(es[i]));
      var blocks := seq(|es|, i requires 0 <= i < |es| => Messages(leaves[i]));
      forall i | 0 <= i < |es|
        ensures |leaves[i]| > 0 && |blocks[i]| > 0 && GetMsg(es[i]) == JoinLines(blocks[i])
      {
        GetMsgFlattensGroups(es[i]);
      }
      JoinLinesConcat(blocks);
      MessagesConcat(leaves);
      assert seq(|es|, i requires 0 <= i < |es| => GetMsg(es[i]))
          == seq(|blocks|, i requires 0 <= i < |blocks| => JoinLines(blocks[i]));
    case _ =>
  }

  /** A group holding one error reports that error's message. */
  lemma GroupOfOne(e: Error)
    ensures GetMsg(Group([e])) == GetMsg(e)
  {
  }

  /** Splitting a group in two splits its message at one newline. */
  lemma GroupAppend(a: seq<Error>, b: seq<Error>)
    requires |a| > 0 && |b| > 0
    ensures GetMsg(Group(a + b)) == GetMsg(Group(a)) + "\n" + GetMsg(Group(b))
  {
    assert Messages(a + b) == Messages(a) + Messages(b);
    JoinLinesAppend(Messages(a), Messages(b));
    assert GetMsg(Group(a + b)) == JoinLines(Messages(a + b));
  }

  lemma {:induction false} SplitSingleLine(a: string)
    requires '\n' !in a
    ensures SplitLines(a) == [a]
  {
    if |a| > 0 {
      assert '\n' !in a[1..] by {
        forall i | 0 <= i < |a| - 1 ensures a[1..][i] != '\n' {
          assert a[1..][i] == a[i + 1];
        }
      }
      SplitSingleLine(a[1..]);
      assert [a[0]] + a[1..] == a;
    }
  }

  lemma {:induction false} SplitAfterLine(a: string, b: string)
    requires '\n' !in a
    ensures SplitLines(a + "\n" + b) == [a] + SplitLines(b)
  {
    if |a| == 0 {
      assert (a + "\n" + b)[1..] == b;
    } else {
      assert (a + "\n" + b)[1..] == a[1..] + "\n" + b;
      SplitAfterLine(a[1..], b);
      assert [a[0]] + a[1..] == a;
    }
  }

  /** Joining lines that hold no newline can be undone by splitting. */
  lemma {:induction false} SplitJoinLines(lines: seq<string>)
    requires |lines| > 0 && forall i | 0 <= i < |lines| :: '\n' !in lines[i]
    ensures SplitLines(JoinLines(lines)) == lines
  {
    if |lines| == 1 {
      SplitSingleLine(lines[0]);
    } else {
      SplitJoinLines(lines[1..]);
      SplitAfterLine(lines[0], JoinLines(lines[1..]));
    }
  }

  /** A validation error reports one line per error detail, in order. */
  lemma ValidationLines(ds: seq<ErrorDetail>)
    requires |ds| > 0 && forall i | 0 <= i < |ds| :: '\n' !in ds[i].msg
    ensures SplitLines(GetMsg(Validation(ds))) == seq(|ds|, i requires 0 <= i < |ds| => ds[i].msg)
  {
    SplitJoinLines(seq(|ds|, i requires 0 <= i < |ds| => ds[i].msg));
  }
}

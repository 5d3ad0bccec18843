/** Option and Result wrappers shared by every stage of the pipeline. */
module Results {

  datatype Option<+T> = None | Some(value: T)

  /** The outcome of a stage that can fail: the Rust `Result<T, String>`, with a
      structured error in place of the message text. */
  datatype Result<+T, +E> = Ok(value: T) | Err(error: E)

  /** Puts `prefix` in front of a successful sequence; an error is passed on
      unchanged. This is how a loop that pushes into a Vec and may return
      early with `Err` is described: what was pushed before the error is lost. */
  function Prepend<T, E>(prefix: seq<T>, r: Result<seq<T>, E>): (p: Result<seq<T>, E>)
    ensures p.Ok? <==> r.Ok?
    ensures r.Err? ==> p == r
    ensures r.Ok? ==> p.value == prefix + r.value
  {
    match r
    case Ok(s) => Ok(prefix + s)
    case Err(e) => Err(e)
  }

  lemma PrependAssoc<T, E>(a: seq<T>, b: seq<T>, r: Result<seq<T>, E>)
    ensures Prepend(a, Prepend(b, r)) == Prepend(a + b, r)
  {
    if r.Ok? {
      assert a + (b + r.value) == (a + b) + r.value;
    }
  }

  /** Moving one element from the head of a result onto the prefix. */
  lemma PrependPush<T, E>(whole: Result<seq<T>, E>, out: seq<T>, t: T, x: Result<seq<T>, E>, rest: Result<seq<T>, E>)
    requires whole == Prepend(out, x) && x == Prepend([t], rest)
    ensures whole == Prepend(out + [t], rest)
  {
    PrependAssoc(out, [t], rest);
  }

  lemma PrependEmpty<T, E>(r: Result<seq<T>, E>)
    ensures Prepend([], r) == r
  {
    if r.Ok? {
      assert [] + r.value == r.value;
    }
  }

  /** If `whole` is `head` followed by a successful `part`, and `joined` is
      `head` followed by `part` followed by `tail`, then `joined` is `whole`
      followed by `tail`. */
  lemma PrependCompose<T, E>(head: seq<T>, whole: Result<seq<T>, E>, part: Result<seq<T>, E>,
                             joined: Result<seq<T>, E>, partJoined: Result<seq<T>, E>,
                             tail: Result<seq<T>, E>)
    requires part.Ok? && whole == Prepend(head, part)
    requires joined == Prepend(head, partJoined) && partJoined == Prepend(part.value, tail)
    ensures whole.Ok? && joined == Prepend(whole.value, tail)
  {
    PrependAssoc(head, part.value, tail);
  }
}

/** The exception raised when a status change is outside the transition table. It
    keeps the attempted pair and builds a message that lists the legal next states. */
module StatusTransitionErrors {
  import opened Text
  import opened OrderStatusEnum

  /** The list part of the message when the source state is final. */
  const FinalStateText: string := "nenhuma (estado final)"

  /** The exception code, the HTTP status the boundary reports. */
  const TransitionErrorCode: int := 422

  const MessageHead: string := "Não é possível alterar o status de '"

  datatype InvalidStatusTransition = InvalidStatusTransition(from: Status, to: Status, message: string, code: int)

  /** The backing strings of the states `from` may move to, in table order. */
  function AllowedValues(from: Status): (r: seq<string>)
    ensures |r| == |from.AllowedTransitions()|
    ensures forall i :: 0 <= i < |r| ==> r[i] == from.AllowedTransitions()[i].Value()
  {
    var allowed := from.AllowedTransitions();
    seq(|allowed|, i requires 0 <= i < |allowed| => allowed[i].Value())
  }

  /** The list part of the message. */
  function AllowedList(from: Status): (r: string)
    ensures r == FinalStateText <==> from.IsFinal()
    ensures !from.IsFinal() ==> r == Join(AllowedValues(from), ", ")
  {
    var values := AllowedValues(from);
    if values == [] then FinalStateText else Join(values, ", ")
  }

  /** The message: the fixed template filled with the two backing strings and the
      list part. */
  function Message(from: Status, to: Status): string {
    MessageHead + (from.Value() + ("' para '" + (to.Value() + ("'. Transições permitidas: " + AllowedList(from)))))
  }

  /** The exception's constructor. */
  function NewInvalidStatusTransition(from: Status, to: Status): (e: InvalidStatusTransition)
    ensures e.from == from && e.to == to
    ensures e.code == TransitionErrorCode
    ensures e.message == Message(from, to)
  {
    InvalidStatusTransition(from, to, Message(from, to), TransitionErrorCode)
  }

  /** The list part for each source state: a draft order may only go to pending. */
  lemma AllowedListOfDraft()
    ensures AllowedList(Draft) == "pending"
  {
    assert AllowedValues(Draft) == ["pending"];
  }

  /** A pending order may go to paid or cancelled, listed in that order. */
  lemma AllowedListOfPending()
    ensures AllowedList(Pending) == "paid, cancelled"
  {
    var pending := AllowedValues(Pending);
    assert pending == ["paid", "cancelled"];
    assert Join(pending[1..], ", ") == "cancelled";
  }

  /** Paid and cancelled orders are final. */
  lemma AllowedListOfFinal()
    ensures AllowedList(Paid) == FinalStateText && AllowedList(Cancelled) == FinalStateText
  {
    assert AllowedValues(Paid) == [];
  }

  lemma QuotedPrefixUnique(u: string, v: string, r1: string, r2: string)
    requires NoQuote(u) && NoQuote(v)
    requires |r1| > 0 && r1[0] == '\'' && |r2| > 0 && r2[0] == '\''
    requires u + r1 == v + r2
    ensures u == v
  {
    var s := u + r1;
    assert s[|u|] == '\'' && s[|v|] == '\'';
    assert u == s[..|u|] && v == s[..|v|];
  }

  lemma ValueHasNoQuote(s: Status)
    ensures NoQuote(s.Value())
  {
  }

  lemma PrefixCancels(p: string, x: string, y: string)
    requires p + x == p + y
    ensures x == y
  {
    assert x == (p + x)[|p|..];
    assert y == (p + y)[|p|..];
  }

  predicate NoQuote(s: string) {
    forall i :: 0 <= i < |s| ==> s[i] != '\''
  }

  /** The shape of the message: a head, a quoted word, a separator that starts with
      a quote, a second quoted word and a tail starting with a quote. Both words can
      be read back. */
  lemma {:induction false} TwoQuotedWords(h: string, sep: string, u1: string, v1: string, t1: string,
                                          u2: string, v2: string, t2: string)
    requires NoQuote(u1) && NoQuote(u2) && NoQuote(v1) && NoQuote(v2)
    requires |sep| > 0 && sep[0] == '\'' && |t1| > 0 && t1[0] == '\'' && |t2| > 0 && t2[0] == '\''
    requires h + (u1 + (sep + (v1 + t1))) == h + (u2 + (sep + (v2 + t2)))
    ensures u1 == u2 && v1 == v2
  {
    PrefixCancels(h, u1 + (sep + (v1 + t1)), u2 + (sep + (v2 + t2)));
    QuotedPrefixUnique(u1, u2, sep + (v1 + t1), sep + (v2 + t2));
    PrefixCancels(u1, sep + (v1 + t1), sep + (v2 + t2));
    PrefixCancels(sep, v1 + t1, v2 + t2);
    QuotedPrefixUnique(v1, v2, t1, t2);
  }

  /** The message identifies the attempted transition: two exceptions with the same
      message were raised for the same pair of states. */
  lemma MessageIdentifiesTransition(a: Status, b: Status, c: Status, d: Status)
    requires Message(a, b) == Message(c, d)
    ensures a == c && b == d
  {
    ValueHasNoQuote(a);
    ValueHasNoQuote(b);
    ValueHasNoQuote(c);
    ValueHasNoQuote(d);
    TwoQuotedWords(MessageHead, "' para '", a.Value(), b.Value(), "'. Transições permitidas: " + AllowedList(a),
                   c.Value(), d.Value(), "'. Transições permitidas: " + AllowedList(c));
    TryFromValue(a);
    TryFromValue(b);
    TryFromValue(c);
    TryFromValue(d);
  }
}

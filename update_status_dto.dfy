/** Parsing of the status-update request: the `status` token must name one of the
    four states. */
module UpdateStatusDtos {
  import opened Common
  import opened Text
  import opened OrderStatusEnum

  datatype UpdateStatusDto = UpdateStatusDto(status: Status)

  /** The allowed tokens as the message lists them: the four backing strings in
      declaration order, separated by ", ". */
  lemma ValuesJoined()
    ensures Join(Values(), ", ") == "draft" + (", " + ("pending" + (", " + ("paid" + (", " + "cancelled")))))
  {
    var values := ["draft", "pending", "paid", "cancelled"];
    assert Values() == values;
    assert values[1..][1..][1..] == ["cancelled"];
  }

  /** The rejection message of an unknown token. */
  function InvalidStatusMessage(): string {
    "Status inválido. Valores permitidos: " + Join(Values(), ", ")
  }

  /** `UpdateStatusDTO::fromArray`: the request fields are a string map; a missing
      `status` reads as the empty token. */
  function FromArray(data: map<string, string>): (r: Result<UpdateStatusDto, string>)
    ensures r.Success? <==> "status" in data && data["status"] in Values()
    ensures r.Success? ==> r.value.status.Value() == data["status"]
    ensures r.Failure? ==> r.error == InvalidStatusMessage()
  {
    var token := if "status" in data then data["status"] else "";
    match TryFrom(token)
    case Some(s) => Success(UpdateStatusDto(s))
    case None => Failure(InvalidStatusMessage())
  }

  /** Every state survives the trip through its own backing string. */
  lemma FromArrayRoundTrip(s: Status)
    ensures FromArray(map["status" := s.Value()]) == Success(UpdateStatusDto(s))
  {
  }

  /** A request without `status` is rejected. */
  lemma MissingStatusRejected(data: map<string, string>)
    requires "status" !in data
    ensures FromArray(data) == Failure(InvalidStatusMessage())
  {
  }
}

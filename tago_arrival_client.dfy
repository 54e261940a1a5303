/**
 * The response-to-DTO conversion of `TagoArrivalClient.getArrivals`: the TAGO arrival items of one
 * stop become `RealtimeArrivalDto`s, one per item and in item order. The HTTP request is not part
 * of this model; its decoded response is the input.
 */
module TagoArrivalClient {
  import opened Wrappers
  import opened Strings
  import opened JavaInt

  /** One `item` of the TAGO arrival response, with the fields the conversion reads. */
  datatype Item = Item(arrprevstationcnt: Int32, arrtime: Int32, routeid: Option<string>, routeno: Int32)

  /** The nested response objects, each of which may be absent (`null`). */
  datatype Items = Items(item: Option<seq<Item>>)
  datatype Body = Body(items: Option<Items>)
  datatype ResponsePart = ResponsePart(body: Option<Body>)
  datatype TagoArrivalResponse = TagoArrivalResponse(response: Option<ResponsePart>)

  /** `RealtimeArrivalDto`: route id, route number, minutes until arrival, stops still to go. */
  datatype RealtimeArrivalDto = RealtimeArrivalDto(busId: Option<string>, busNo: string, arrTimeMin: int,
                                                   prevStationCount: int)

  /** The item array the conversion walks, empty when any level of the response is missing. */
  function ItemsOf(r: Option<TagoArrivalResponse>): seq<Item> {
    if r.None? || r.value.response.None? || r.value.response.value.body.None? ||
       r.value.response.value.body.value.items.None? || r.value.response.value.body.value.items.value.item.None?
    then []
    else r.value.response.value.body.value.items.value.item.value
  }

  /** The DTO made from one item: seconds rounded up to minutes, the route number as decimal text. */
  function ToDto(item: Item): RealtimeArrivalDto {
    RealtimeArrivalDto(item.routeid, DecimalString(item.routeno), CeilMinutes(item.arrtime), item.arrprevstationcnt)
  }

  /** `getArrivals` after the HTTP call: one DTO per item, in item order. */
  method GetArrivals(response: Option<TagoArrivalResponse>) returns (result: seq<RealtimeArrivalDto>)
    ensures |result| == |ItemsOf(response)|
    ensures forall i :: 0 <= i < |result| ==> result[i] == ToDto(ItemsOf(response)[i])
    ensures ItemsOf(response) == [] ==> result == []
  {
    result := [];
    if response.None? || response.value.response.None? || response.value.response.value.body.None? ||
       response.value.response.value.body.value.items.None? {
      return;
    }
    var items := response.value.response.value.body.value.items.value.item;
    if items.None? {
      return;
    }
    for k := 0 to |items.value|
      invariant |result| == k
      invariant forall i :: 0 <= i < k ==> result[i] == ToDto(items.value[i])
    {
      var item := items.value[k];
      var seconds := item.arrtime;
      var minutes := DivTrunc(Add(seconds, 59), 60);
      var dto := RealtimeArrivalDto(item.routeid, DecimalString(item.routeno), minutes, item.arrprevstationcnt);
      result := result + [dto];
    }
  }

  /** A DTO keeps its item's route id and stop count, and its minutes cover the item's seconds
      (a partial minute rounds up) as long as adding 59 does not overflow. */
  lemma ToDtoSpec(item: Item)
    ensures ToDto(item).busId == item.routeid && ToDto(item).prevStationCount == item.arrprevstationcnt
    ensures 0 <= item.arrtime <= INT_MAX - 59 ==>
      60 * (ToDto(item).arrTimeMin - 1) < item.arrtime <= 60 * ToDto(item).arrTimeMin
  {
    if 0 <= item.arrtime <= INT_MAX - 59 {
      CeilMinutesRoundsUp(item.arrtime);
    }
  }

  /** The route number's decimal text reads back as the number, after a '-' when it is negative. */
  lemma BusNoRoundTrip(item: Item)
    ensures var b := ToDto(item).busNo;
      if item.routeno >= 0 then AllDigits(b) && DigitsValue(b) == item.routeno
      else b[0] == '-' && AllDigits(b[1..]) && DigitsValue(b[1..]) == -(item.routeno as int)
  {
    DecimalStringRoundTrip(item.routeno);
  }
}

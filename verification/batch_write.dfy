/**
 * `getBatchWriteData`: builds the DynamoDB batch-write request for a window
 * of the records array, coercing `latitude` and `longitude` of each record
 * in the window in place and keying each put item by a hash of the record
 * as it was before coercion.
 */
module BatchWrite {
  import opened Records

  /** `{ PutRequest: { Item } }`. */
  datatype PutRequest = PutRequest(item: Record)

  /** `{ RequestItems: { [table]: [...] } }`. */
  datatype BatchWriteRequest = BatchWriteRequest(requestItems: map<string, seq<PutRequest>>)

  /**
   * The record after `latitude` and `longitude` have been passed through
   * `parseFloat` in place: at most those two keys are added, and no other.
   */
  function Coerced(r: Record, parseFloat: Value -> Float): (c: Record)
    ensures |r| <= |c| <= |r| + 2
    ensures forall k :: k in Names(c) <==> k in Names(r) || k == LATITUDE || k == LONGITUDE
  {
    var r1 := Set(r, LATITUDE, Num(parseFloat(Get(r, LATITUDE))));
    NamesSet(r, LATITUDE, Num(parseFloat(Get(r, LATITUDE))));
    NamesSet(r1, LONGITUDE, Num(parseFloat(Get(r1, LONGITUDE))));
    Set(r1, LONGITUDE, Num(parseFloat(Get(r1, LONGITUDE))))
  }

  /**
   * The item written for `r`: `Object.assign({ id }, coerced record)`, where
   * `id` is `idOf` (md5 of the JSON text) of the record BEFORE coercion.
   */
  function PutItem(r: Record, idOf: Record -> string, parseFloat: Value -> Float): (item: Record)
    ensures |item| >= 1 && item[0].name == ID
  {
    AssignHead([Field(ID, Str(idOf(r)))], Coerced(r, parseFloat));
    Assign([Field(ID, Str(idOf(r)))], Coerced(r, parseFloat))
  }

  /** The request for a window of original records, one put per record, in order, under `tableName`. */
  function BatchRequest(window: seq<Record>, tableName: string, idOf: Record -> string, parseFloat: Value -> Float): BatchWriteRequest
  {
    BatchWriteRequest(map[tableName := seq(|window|, j requires 0 <= j < |window| => PutRequest(PutItem(window[j], idOf, parseFloat)))])
  }

  /**
   * Coercion replaces exactly the two coordinates: they read back as the
   * parsed values of the originals, every other property (the address among
   * them) reads back unchanged, and a record that already has both
   * coordinates keeps its keys in the same order.
   */
  lemma CoercedFields(r: Record, parseFloat: Value -> Float, k: string)
    ensures Get(Coerced(r, parseFloat), LATITUDE) == Num(parseFloat(Get(r, LATITUDE)))
    ensures Get(Coerced(r, parseFloat), LONGITUDE) == Num(parseFloat(Get(r, LONGITUDE)))
    ensures k != LATITUDE && k != LONGITUDE ==> Get(Coerced(r, parseFloat), k) == Get(r, k)
    ensures LATITUDE in Names(r) && LONGITUDE in Names(r) ==> Names(Coerced(r, parseFloat)) == Names(r)
    ensures Keyed(r) ==> Keyed(Coerced(r, parseFloat))
  {
    var r1 := Set(r, LATITUDE, Num(parseFloat(Get(r, LATITUDE))));
    var v2 := Num(parseFloat(Get(r1, LONGITUDE)));
    GetSet(r, LATITUDE, Num(parseFloat(Get(r, LATITUDE))), LONGITUDE);
    GetSet(r, LATITUDE, Num(parseFloat(Get(r, LATITUDE))), k);
    GetSet(r, LATITUDE, Num(parseFloat(Get(r, LATITUDE))), LATITUDE);
    GetSet(r1, LONGITUDE, v2, k);
    GetSet(r1, LONGITUDE, v2, LATITUDE);
    GetSet(r1, LONGITUDE, v2, LONGITUDE);
    NamesSet(r, LATITUDE, Num(parseFloat(Get(r, LATITUDE))));
    NamesSet(r1, LONGITUDE, v2);
    if Keyed(r) {
      SetKeyed(r, LATITUDE, Num(parseFloat(Get(r, LATITUDE))));
      SetKeyed(r1, LONGITUDE, v2);
    }
  }

  /**
   * The put item of a keyed record carries every property of the coerced
   * record, and an `id` equal to the hash of the ORIGINAL record unless the
   * record has its own `id` column, which then wins (`Object.assign` copies
   * it over).
   */
  lemma PutItemGet(r: Record, idOf: Record -> string, parseFloat: Value -> Float, k: string)
    requires Keyed(r)
    ensures k != ID ==> Get(PutItem(r, idOf, parseFloat), k) == Get(Coerced(r, parseFloat), k)
    ensures ID !in Names(r) ==> Get(PutItem(r, idOf, parseFloat), ID) == Str(idOf(r))
    ensures ID in Names(r) ==> Get(PutItem(r, idOf, parseFloat), ID) == Get(r, ID)
  {
    var c := Coerced(r, parseFloat);
    var target := [Field(ID, Str(idOf(r)))];
    CoercedFields(r, parseFloat, ID);
    GetAssign(target, c, k);
    GetAssign(target, c, ID);
    GetSet([], ID, Str(idOf(r)), k);
    assert target == Set([], ID, Str(idOf(r)));
    if k !in Names(c) {
      GetAbsent(c, k);
    }
  }

  /** Without an `id` column of its own, the item lists `id` first, then the record's keys in order. */
  lemma PutItemNames(r: Record, idOf: Record -> string, parseFloat: Value -> Float)
    requires Keyed(r) && ID !in Names(r) && LATITUDE in Names(r) && LONGITUDE in Names(r)
    ensures Names(PutItem(r, idOf, parseFloat)) == [ID] + Names(r)
  {
    var c := Coerced(r, parseFloat);
    var target := [Field(ID, Str(idOf(r)))];
    CoercedFields(r, parseFloat, ID);
    assert Names(target) == [ID];
    forall i | 0 <= i < |c| ensures c[i].name !in Names(target) {
      assert Names(c)[i] == c[i].name;
    }
    NamesAssign(target, c);
  }

  /** The two in-place writes to `records[k]`: `latitude`, then `longitude`, through `parseFloat`. */
  method CoerceAt(records: array<Record>, k: nat, parseFloat: Value -> Float)
    requires k < records.Length
    modifies records
    ensures records[k] == Coerced(old(records[k]), parseFloat)
    ensures forall m :: 0 <= m < records.Length && m != k ==> records[m] == old(records[m])
  {
    records[k] := Set(records[k], LATITUDE, Num(parseFloat(Get(records[k], LATITUDE))));
    records[k] := Set(records[k], LONGITUDE, Num(parseFloat(Get(records[k], LONGITUDE))));
  }

  /**
   * `getBatchWriteData(records, offset, size)`: one put request per record of
   * the window, in order, under `tableName`; the window's records are
   * coerced in place and every other record is left as it was.
   */
  method GetBatchWriteData(records: array<Record>, offset: nat, size: nat, tableName: string,
                           idOf: Record -> string, parseFloat: Value -> Float)
    returns (requestParams: BatchWriteRequest)
    requires offset + size <= records.Length
    modifies records
    ensures requestParams == BatchRequest(old(records[offset..offset + size]), tableName, idOf, parseFloat)
    ensures forall k :: 0 <= k < records.Length ==>
              records[k] == if offset <= k < offset + size then Coerced(old(records[k]), parseFloat) else old(records[k])
  {
    var items: seq<PutRequest> := [];
    for j := 0 to size
      invariant |items| == j
      invariant forall m :: 0 <= m < j ==> items[m] == PutRequest(PutItem(old(records[offset + m]), idOf, parseFloat))
      invariant forall k :: 0 <= k < records.Length ==>
                  records[k] == if offset <= k < offset + j then Coerced(old(records[k]), parseFloat) else old(records[k])
    {
      var id := idOf(records[offset + j]);
      CoerceAt(records, offset + j, parseFloat);
      items := items + [PutRequest(Assign([Field(ID, Str(id))], records[offset + j]))];
    }
    ghost var window := old(records[offset..offset + size]);
    assert items == seq(|window|, j requires 0 <= j < |window| => PutRequest(PutItem(window[j], idOf, parseFloat)));
    requestParams := BatchWriteRequest(map[tableName := items]);
  }
}

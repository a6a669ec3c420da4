/** Byte arrays inside JSON trees (src/serde/uint8array.ts): bytes are written as arrays of numbers, and every array
    made only of numbers is read back as bytes. */
module ByteTrees {
  import opened Prelude

  /** What JSON can carry. */
  datatype Json =
    | JNull
    | JBool(flag: bool)
    | JNumber(number: real)
    | JString(text: string)
    | JArray(items: seq<Json>)
    | JObject(fields: seq<JsonField>)

  datatype JsonField = JsonField(key: string, value: Json)

  /** The same with byte arrays. */
  datatype Value =
    | Null
    | Bool(flag: bool)
    | Number(number: real)
    | String(text: string)
    | Bytes(bytes: seq<byte>)
    | Array(items: seq<Value>)
    | Object(fields: seq<Field>)

  datatype Field = Field(key: string, value: Value)

  // ---------- the two transformations ----------

  function Numbers(b: seq<byte>): (items: seq<Json>)
    ensures |items| == |b|
  {
    if b == [] then [] else [JNumber(b[0] as real)] + Numbers(b[1..])
  }

  function Serialize(v: Value): Json {
    match v
    case Bytes(b) => JArray(Numbers(b))
    case Null => JNull
    case Bool(f) => JBool(f)
    case Number(n) => JNumber(n)
    case String(t) => JString(t)
    case Array(items) => JArray(SerializeAll(items))
    case Object(fields) => JObject(SerializeFields(fields))
  }

  function SerializeAll(items: seq<Value>): (ws: seq<Json>)
    ensures |ws| == |items|
  {
    if items == [] then [] else [Serialize(items[0])] + SerializeAll(items[1..])
  }

  function SerializeFields(fields: seq<Field>): (ws: seq<JsonField>)
    ensures |ws| == |fields|
  {
    if fields == [] then []
    else [JsonField(fields[0].key, Serialize(fields[0].value))] + SerializeFields(fields[1..])
  }

  predicate AllNumbers(items: seq<Json>) {
    forall i :: 0 <= i < |items| ==> items[i].JNumber?
  }

  /** How a typed array stores a number: the fraction is cut off, and the integer is taken modulo 256. */
  function ToUint8(n: real): byte {
    (if n >= 0.0 then n.Floor else -((-n).Floor)) % 256
  }

  function ToBytes(items: seq<Json>): (b: seq<byte>)
    requires AllNumbers(items)
    ensures |b| == |items|
  {
    if items == [] then [] else [ToUint8(items[0].number)] + ToBytes(items[1..])
  }

  function Deserialize(w: Json): Value {
    match w
    case JArray(items) => if AllNumbers(items) then Bytes(ToBytes(items)) else Array(DeserializeAll(items))
    case JNull => Null
    case JBool(f) => Bool(f)
    case JNumber(n) => Number(n)
    case JString(t) => String(t)
    case JObject(fields) => Object(DeserializeFields(fields))
  }

  function DeserializeAll(items: seq<Json>): (vs: seq<Value>)
    ensures |vs| == |items|
  {
    if items == [] then [] else [Deserialize(items[0])] + DeserializeAll(items[1..])
  }

  function DeserializeFields(fields: seq<JsonField>): (vs: seq<Field>)
    ensures |vs| == |fields|
  {
    if fields == [] then []
    else [Field(fields[0].key, Deserialize(fields[0].value))] + DeserializeFields(fields[1..])
  }

  // ---------- node by node ----------

  /** A typed array keeps the integer part, whatever its sign, modulo 256. */
  lemma ToUint8Meaning(n: real, z: int)
    requires if z > 0 then z as real <= n < z as real + 1.0
             else if z < 0 then z as real - 1.0 < n <= z as real else -1.0 < n < 1.0
    ensures ToUint8(n) == z % 256
  {
    IntegerPart(n, z);
  }

  lemma IntegerPart(n: real, z: int)
    requires if z > 0 then z as real <= n < z as real + 1.0
             else if z < 0 then z as real - 1.0 < n <= z as real else -1.0 < n < 1.0
    ensures n >= 0.0 ==> n.Floor == z
    ensures n < 0.0 ==> (-n).Floor == -z
  {
  }

  lemma {:induction false} NumbersAt(b: seq<byte>, i: nat)
    requires i < |b|
    ensures Numbers(b)[i] == JNumber(b[i] as real)
  {
    if i > 0 {
      NumbersAt(b[1..], i - 1);
    }
  }

  lemma {:induction false} SerializedAt(items: seq<Value>, i: nat)
    requires i < |items|
    ensures SerializeAll(items)[i] == Serialize(items[i])
  {
    if i > 0 {
      SerializedAt(items[1..], i - 1);
    }
  }

  lemma {:induction false} SerializedFieldAt(fields: seq<Field>, i: nat)
    requires i < |fields|
    ensures SerializeFields(fields)[i] == JsonField(fields[i].key, Serialize(fields[i].value))
  {
    if i > 0 {
      SerializedFieldAt(fields[1..], i - 1);
    }
  }

  /** Writing keeps every node but byte arrays, and the order of items and fields; bytes become their numbers. */
  lemma SerializeMeaning(v: Value)
    ensures var w := Serialize(v);
            match v
            case Null => w == JNull
            case Bool(flag) => w == JBool(flag)
            case Number(number) => w == JNumber(number)
            case String(text) => w == JString(text)
            case Bytes(b) =>
              w.JArray? && |w.items| == |b| && forall i :: 0 <= i < |b| ==> w.items[i] == JNumber(b[i] as real)
            case Array(items) =>
              w.JArray? && |w.items| == |items| && forall i :: 0 <= i < |items| ==> w.items[i] == Serialize(items[i])
            case Object(fields) =>
              && w.JObject? && |w.fields| == |fields|
              && forall i :: 0 <= i < |fields| ==>
                   w.fields[i] == JsonField(fields[i].key, Serialize(fields[i].value))
  {
    match v
    case Bytes(b) =>
      forall i | 0 <= i < |b| ensures Numbers(b)[i] == JNumber(b[i] as real) {
        NumbersAt(b, i);
      }
    case Array(items) =>
      forall i | 0 <= i < |items| ensures SerializeAll(items)[i] == Serialize(items[i]) {
        SerializedAt(items, i);
      }
    case Object(fields) =>
      forall i | 0 <= i < |fields|
        ensures SerializeFields(fields)[i] == JsonField(fields[i].key, Serialize(fields[i].value)) {
        SerializedFieldAt(fields, i);
      }
    case _ =>
  }

  lemma {:induction false} BytesAt(items: seq<Json>, i: nat)
    requires AllNumbers(items) && i < |items|
    ensures ToBytes(items)[i] == ToUint8(items[i].number)
  {
    if i > 0 {
      BytesAt(items[1..], i - 1);
    }
  }

  lemma {:induction false} DeserializedAt(items: seq<Json>, i: nat)
    requires i < |items|
    ensures DeserializeAll(items)[i] == Deserialize(items[i])
  {
    if i > 0 {
      DeserializedAt(items[1..], i - 1);
    }
  }

  lemma {:induction false} DeserializedFieldAt(fields: seq<JsonField>, i: nat)
    requires i < |fields|
    ensures DeserializeFields(fields)[i] == Field(fields[i].key, Deserialize(fields[i].value))
  {
    if i > 0 {
      DeserializedFieldAt(fields[1..], i - 1);
    }
  }

  /** Reading keeps every node but arrays made only of numbers, which become the bytes of the numbers. */
  lemma DeserializeMeaning(w: Json)
    ensures var v := Deserialize(w);
            match w
            case JNull => v == Null
            case JBool(flag) => v == Bool(flag)
            case JNumber(number) => v == Number(number)
            case JString(text) => v == String(text)
            case JArray(items) =>
              if forall i :: 0 <= i < |items| ==> items[i].JNumber? then
                v.Bytes? && |v.bytes| == |items|
                && forall i :: 0 <= i < |items| ==> v.bytes[i] == ToUint8(items[i].number)
              else
                v.Array? && |v.items| == |items|
                && forall i :: 0 <= i < |items| ==> v.items[i] == Deserialize(items[i])
            case JObject(fields) =>
              && v.Object? && |v.fields| == |fields|
              && forall i :: 0 <= i < |fields| ==>
                   v.fields[i] == Field(fields[i].key, Deserialize(fields[i].value))
  {
    match w
    case JArray(items) =>
      if AllNumbers(items) {
        forall i | 0 <= i < |items| ensures ToBytes(items)[i] == ToUint8(items[i].number) {
          BytesAt(items, i);
        }
      } else {
        forall i | 0 <= i < |items| ensures DeserializeAll(items)[i] == Deserialize(items[i]) {
          DeserializedAt(items, i);
        }
      }
    case JObject(fields) =>
      forall i | 0 <= i < |fields|
        ensures DeserializeFields(fields)[i] == Field(fields[i].key, Deserialize(fields[i].value)) {
        DeserializedFieldAt(fields, i);
      }
    case _ =>
  }

  // ---------- reading what was written ----------

  predicate OnlyNumbers(items: seq<Value>) {
    forall i :: 0 <= i < |items| ==> items[i].Number?
  }

  /** No array in the value is made only of numbers; in particular none is empty. */
  predicate NoNumberArrays(v: Value) {
    match v
    case Array(items) => !OnlyNumbers(items) && NoNumberArraysIn(items)
    case Object(fields) => NoNumberArraysInFields(fields)
    case _ => true
  }

  predicate NoNumberArraysIn(items: seq<Value>) {
    items != [] ==> NoNumberArrays(items[0]) && NoNumberArraysIn(items[1..])
  }

  predicate NoNumberArraysInFields(fields: seq<Field>) {
    fields != [] ==> NoNumberArrays(fields[0].value) && NoNumberArraysInFields(fields[1..])
  }

  lemma {:induction false} NumbersAreBytes(b: seq<byte>)
    ensures AllNumbers(Numbers(b)) && ToBytes(Numbers(b)) == b
  {
    if b == [] {
    } else {
      NumbersAreBytes(b[1..]);
      var items := Numbers(b);
      assert items[1..] == Numbers(b[1..]);
      assert forall i :: 1 <= i < |items| ==> items[i] == items[1..][i - 1];
    }
  }

  lemma {:induction false} NumbersStayNumbers(items: seq<Value>)
    ensures AllNumbers(SerializeAll(items)) <==> OnlyNumbers(items)
  {
    if items == [] {
    } else {
      var ws, rest := SerializeAll(items), items[1..];
      NumbersStayNumbers(rest);
      assert ws[1..] == SerializeAll(rest);
      assert AllNumbers(ws) <==> ws[0].JNumber? && AllNumbers(ws[1..]) by {
        assert forall i :: 1 <= i < |ws| ==> ws[i] == ws[1..][i - 1];
        assert forall i :: 0 <= i < |ws[1..]| ==> ws[1..][i] == ws[i + 1];
      }
      assert OnlyNumbers(items) <==> items[0].Number? && OnlyNumbers(rest) by {
        assert forall i :: 1 <= i < |items| ==> items[i] == rest[i - 1];
        assert forall i :: 0 <= i < |rest| ==> rest[i] == items[i + 1];
      }
    }
  }

  /** A value survives being written and read exactly when none of its arrays is made only of numbers. */
  lemma {:induction false} ReadBackIff(v: Value)
    ensures Deserialize(Serialize(v)) == v <==> NoNumberArrays(v)
  {
    match v
    case Bytes(b) => NumbersAreBytes(b);
    case Array(items) =>
      NumbersStayNumbers(items);
      ReadBackAllIff(items);
    case Object(fields) => ReadBackFieldsIff(fields);
    case _ =>
  }

  lemma {:induction false} ReadBackAllIff(items: seq<Value>)
    ensures DeserializeAll(SerializeAll(items)) == items <==> NoNumberArraysIn(items)
  {
    if items == [] {
    } else {
      ReadBackIff(items[0]);
      ReadBackAllIff(items[1..]);
      var ws := SerializeAll(items);
      assert ws[1..] == SerializeAll(items[1..]);
      var back := DeserializeAll(ws);
      assert back[0] == Deserialize(Serialize(items[0])) && back[1..] == DeserializeAll(SerializeAll(items[1..]));
      assert items == [items[0]] + items[1..] && back == [back[0]] + back[1..];
    }
  }

  lemma {:induction false} ReadBackFieldsIff(fields: seq<Field>)
    ensures DeserializeFields(SerializeFields(fields)) == fields <==> NoNumberArraysInFields(fields)
  {
    if fields == [] {
    } else {
      ReadBackIff(fields[0].value);
      ReadBackFieldsIff(fields[1..]);
      var ws := SerializeFields(fields);
      assert ws[1..] == SerializeFields(fields[1..]);
      var back := DeserializeFields(ws);
      assert back[0] == Field(fields[0].key, Deserialize(Serialize(fields[0].value)));
      assert back[1..] == DeserializeFields(SerializeFields(fields[1..]));
      assert fields == [fields[0]] + fields[1..] && back == [back[0]] + back[1..];
    }
  }

  // ---------- writing what was read ----------

  predicate IsByteNumber(n: real) {
    n == n.Floor as real && 0 <= n.Floor < 256
  }

  predicate ByteNumbers(items: seq<Json>)
    requires AllNumbers(items)
  {
    forall i :: 0 <= i < |items| ==> IsByteNumber(items[i].number)
  }

  /** Every array made only of numbers holds integers from 0 to 255. */
  predicate NumberArraysAreBytes(w: Json) {
    match w
    case JArray(items) => if AllNumbers(items) then ByteNumbers(items) else NumberArraysAreBytesIn(items)
    case JObject(fields) => NumberArraysAreBytesInFields(fields)
    case _ => true
  }

  predicate NumberArraysAreBytesIn(items: seq<Json>) {
    items != [] ==> NumberArraysAreBytes(items[0]) && NumberArraysAreBytesIn(items[1..])
  }

  predicate NumberArraysAreBytesInFields(fields: seq<JsonField>) {
    fields != [] ==> NumberArraysAreBytes(fields[0].value) && NumberArraysAreBytesInFields(fields[1..])
  }

  lemma ByteNumberStored(n: real)
    ensures ToUint8(n) as real == n <==> IsByteNumber(n)
  {
  }

  lemma {:induction false} BytesAreNumbersIff(items: seq<Json>)
    requires AllNumbers(items)
    ensures Numbers(ToBytes(items)) == items <==> ByteNumbers(items)
  {
    if items == [] {
    } else {
      var rest := items[1..];
      BytesAreNumbersIff(rest);
      ByteNumberStored(items[0].number);
      var back := Numbers(ToBytes(items));
      assert ToBytes(items)[1..] == ToBytes(rest);
      assert back[0] == JNumber(ToUint8(items[0].number) as real) && back[1..] == Numbers(ToBytes(rest));
      assert items == [items[0]] + rest && back == [back[0]] + back[1..];
      assert ByteNumbers(items) <==> IsByteNumber(items[0].number) && ByteNumbers(rest) by {
        assert forall i :: 1 <= i < |items| ==> items[i] == rest[i - 1];
        assert forall i :: 0 <= i < |rest| ==> rest[i] == items[i + 1];
      }
    }
  }

  /** A JSON tree survives being read and written exactly when its number arrays hold bytes. */
  lemma {:induction false} WriteBackIff(w: Json)
    ensures Serialize(Deserialize(w)) == w <==> NumberArraysAreBytes(w)
  {
    match w
    case JArray(items) =>
      if AllNumbers(items) {
        BytesAreNumbersIff(items);
      } else {
        WriteBackAllIff(items);
      }
    case JObject(fields) => WriteBackFieldsIff(fields);
    case _ =>
  }

  lemma {:induction false} WriteBackAllIff(items: seq<Json>)
    ensures SerializeAll(DeserializeAll(items)) == items <==> NumberArraysAreBytesIn(items)
  {
    if items == [] {
    } else {
      WriteBackIff(items[0]);
      WriteBackAllIff(items[1..]);
      var vs := DeserializeAll(items);
      assert vs[1..] == DeserializeAll(items[1..]);
      var back := SerializeAll(vs);
      assert back[0] == Serialize(Deserialize(items[0])) && back[1..] == SerializeAll(DeserializeAll(items[1..]));
      assert items == [items[0]] + items[1..] && back == [back[0]] + back[1..];
    }
  }

  lemma {:induction false} WriteBackFieldsIff(fields: seq<JsonField>)
    ensures SerializeFields(DeserializeFields(fields)) == fields <==> NumberArraysAreBytesInFields(fields)
  {
    if fields == [] {
    } else {
      WriteBackIff(fields[0].value);
      WriteBackFieldsIff(fields[1..]);
      var vs := DeserializeFields(fields);
      assert vs[1..] == DeserializeFields(fields[1..]);
      var back := SerializeFields(vs);
      assert back[0] == JsonField(fields[0].key, Serialize(Deserialize(fields[0].value)));
      assert back[1..] == SerializeFields(DeserializeFields(fields[1..]));
      assert fields == [fields[0]] + fields[1..] && back == [back[0]] + back[1..];
    }
  }

  // ---------- the one place where an empty list may arrive ----------

  /** The answer of getProgramAccounts: an empty array means no accounts, not empty bytes. */
  function ProgramAccounts(response: Json): Value {
    if response == JArray([]) then Array([]) else Deserialize(response)
  }

  /** With that exception, a list of account objects of any length reads back whenever its accounts do. */
  lemma AccountListsReadBackIff(accounts: seq<Value>)
    requires forall i :: 0 <= i < |accounts| ==> accounts[i].Object?
    ensures ProgramAccounts(Serialize(Array(accounts))) == Array(accounts) <==> NoNumberArraysIn(accounts)
  {
    if accounts != [] {
      assert !accounts[0].Number?;
      assert !OnlyNumbers(accounts);
      ReadBackIff(Array(accounts));
    }
  }
}

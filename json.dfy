/** The decoded-JSON layer the path kernel works on: the values `json.loads`
    produces, the exceptions the kernel's decoding can raise, and the two
    failure-carrying wrappers the model uses for Python's `None` and
    exceptions. */
module Json {

  /** A decoded JSON value. Python's `int` and `float` numbers are both `Num`. */
  datatype Value =
    | Null
    | Bool(b: bool)
    | Num(n: real)
    | Str(s: string)
    | Arr(items: seq<Value>)
    | Obj(fields: map<string, Value>)

  /** Python's `Optional[...]`. */
  datatype Option<+T> = None | Some(value: T)

  /** The exception a decoding step raises. */
  datatype Error =
      /** `AttributeError`: `.get` was called on a value that is not a dict. */
    | NotADict
      /** `TypeError`: a "contours" or "points" value cannot be iterated. */
    | NotIterable
      /** A field whose JSON type is not the one the class annotates (see README). */
    | WrongType(key: string)

  /** A result or the exception that replaced it. */
  datatype Result<+T> = Ok(value: T) | Err(error: Error)

  /** `data.get(key, default)` on a dict. */
  function Get(fields: map<string, Value>, key: string, default: Value): Value
  {
    if key in fields then fields[key] else default
  }

  /** The elements a Python `for` loop visits in `v`, when each of them is to be
      read with `.get`. A list yields its items; an empty string or dict yields
      nothing; a non-empty string or dict yields strings, on which the first
      `.get` raises; `None`, a bool or a number cannot be iterated at all. */
  function Elements(v: Value): (r: Result<seq<Value>>)
    ensures v.Arr? ==> r == Ok(v.items)
    ensures r.Ok? ==> v.Arr? || r.value == []
    ensures r.Err? <==> match v
                        case Arr(_) => false
                        case Str(s) => s != ""
                        case Obj(m) => m != map[]
                        case _ => true
    ensures r.Err? ==> r.error == (if v.Str? || v.Obj? then NotADict else NotIterable)
  {
    match v
    case Arr(items) => Ok(items)
    case Str(s) => if s == "" then Ok([]) else Err(NotADict)
    case Obj(m) => if m == map[] then Ok([]) else Err(NotADict)
    case _ => Err(NotIterable)
  }

  /** A list comprehension `[decode(v) for v in vs]`: the first element whose
      decoding raises decides the exception. */
  function DecodeEach<T>(vs: seq<Value>, decode: Value -> Result<T>): (r: Result<seq<T>>)
    ensures r.Ok? <==> forall i :: 0 <= i < |vs| ==> decode(vs[i]).Ok?
    ensures r.Ok? ==> |r.value| == |vs| && forall i :: 0 <= i < |vs| ==> decode(vs[i]) == Ok(r.value[i])
    ensures r.Err? ==> exists i :: 0 <= i < |vs| && decode(vs[i]) == Err(r.error) &&
                                   forall k :: 0 <= k < i ==> decode(vs[k]).Ok?
  {
    if vs == [] then Ok([])
    else
      var head := decode(vs[0]);
      if head.Err? then Err(head.error)
      else
        var tail := DecodeEach(vs[1..], decode);
        if tail.Err? then
          assert forall k :: 1 <= k < |vs| ==> vs[k] == vs[1..][k - 1];
          Err(tail.error)
        else
          Ok([head.value] + tail.value)
  }

  /** `[encode(x) for x in xs]`. */
  function EncodeEach<T>(xs: seq<T>, encode: T -> Value): seq<Value>
  {
    seq(|xs|, i requires 0 <= i < |xs| => encode(xs[i]))
  }

  /** Decoding what was encoded element by element gives the elements back,
      in order, whenever that holds of each element. */
  lemma DecodeEncodeEach<T>(xs: seq<T>, encode: T -> Value, decode: Value -> Result<T>)
    requires forall i :: 0 <= i < |xs| ==> decode(encode(xs[i])) == Ok(xs[i])
    ensures DecodeEach(EncodeEach(xs, encode), decode) == Ok(xs)
  {
    var vs := EncodeEach(xs, encode);
    var r := DecodeEach(vs, decode);
    assert forall i :: 0 <= i < |vs| ==> decode(vs[i]) == Ok(xs[i]);
    assert r.Ok?;
    assert r.value == xs;
  }
}

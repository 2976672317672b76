/**
 * `HttpUtils.getAttribute`: read an attribute of a request or a session, unwrap one level
 * of `Optional`, and keep the value only if it has the requested class.
 */
module HttpUtils {
  import opened Wrappers
  import opened Servlet

  /** The classes callers ask for. */
  datatype Class = StringClass | AuthenticationTypeClass | OptionalClass

  /** `clazz.isInstance(obj)`; null is an instance of nothing. */
  predicate IsInstance(obj: Option<Value>, clazz: Class) {
    match obj
    case None => false
    case Some(v) =>
      match clazz
      case StringClass => v.StringValue?
      case AuthenticationTypeClass => v.AuthTypeValue?
      case OptionalClass => v.OptionalValue?
  }

  /** One level of `Optional` removed; an empty `Optional` becomes null. */
  function Unwrap(obj: Option<Value>): Option<Value> {
    if obj.Some? && obj.value.OptionalValue? then obj.value.inner else obj
  }

  /** The shared body of both overloads, as a function of the stored value. */
  function Typed(obj: Option<Value>, clazz: Class): (r: Option<Value>)
    ensures r.Some? <==> IsInstance(Unwrap(obj), clazz)
    ensures r.Some? ==> r == Unwrap(obj)
  {
    var unwrapped := Unwrap(obj);
    if IsInstance(unwrapped, clazz) then unwrapped else None
  }

  function Lookup(attrs: map<string, Value>, name: string): Option<Value> {
    if name in attrs then Some(attrs[name]) else None
  }

  /** `getAttribute(map, name, clazz)` over an attribute map. */
  function GetAttribute(attrs: map<string, Value>, name: string, clazz: Class): (r: Option<Value>)
    ensures name !in attrs ==> r.None?
    ensures r.Some? ==> IsInstance(r, clazz)
    ensures name in attrs && IsInstance(Some(attrs[name]), clazz) && !attrs[name].OptionalValue? ==>
              r == Some(attrs[name])
    ensures name in attrs && attrs[name] == OptionalValue(None) ==> r.None?
  {
    Typed(Lookup(attrs, name), clazz)
  }

  /** `getAttribute(HttpServletRequest, name, clazz)`. */
  function GetRequestAttribute(request: HttpRequest, name: string, clazz: Class): (r: Option<Value>)
    reads request
    ensures name !in request.attributes ==> r.None?
    ensures r.Some? <==> IsInstance(Unwrap(Lookup(request.attributes, name)), clazz)
    ensures r.Some? ==> r == Unwrap(Lookup(request.attributes, name))
  {
    GetAttribute(request.attributes, name, clazz)
  }

  /** `getAttribute(HttpSession, name, clazz)`. */
  function GetSessionAttribute(session: HttpSession, name: string, clazz: Class): (r: Option<Value>)
    reads session
    ensures name !in session.attributes ==> r.None?
    ensures r.Some? <==> IsInstance(Unwrap(Lookup(session.attributes, name)), clazz)
    ensures r.Some? ==> r == Unwrap(Lookup(session.attributes, name))
  {
    GetAttribute(session.attributes, name, clazz)
  }

  /** The two overloads agree whenever the stored attributes agree. */
  lemma OverloadsAgree(request: HttpRequest, session: HttpSession, name: string, clazz: Class)
    requires request.attributes == session.attributes
    ensures GetRequestAttribute(request, name, clazz) == GetSessionAttribute(session, name, clazz)
  {
  }

  /** Only one level is unwrapped: an `Optional` inside an `Optional` is never a string. */
  lemma {:induction false} UnwrapsOnce(attrs: map<string, Value>, name: string, s: string)
    requires name in attrs && attrs[name] == OptionalValue(Some(OptionalValue(Some(StringValue(s)))))
    ensures GetAttribute(attrs, name, StringClass).None?
    ensures GetAttribute(attrs, name, OptionalClass) == Some(OptionalValue(Some(StringValue(s))))
  {
    assert Lookup(attrs, name) == Some(attrs[name]);
  }

  /** A string stored plainly or wrapped once in an `Optional` reads back as the same string. */
  lemma {:induction false} WrappedStringReadsBack(attrs: map<string, Value>, name: string, s: string)
    requires name in attrs
    requires attrs[name] == StringValue(s) || attrs[name] == OptionalValue(Some(StringValue(s)))
    ensures GetAttribute(attrs, name, StringClass) == Some(StringValue(s))
  {
    assert Lookup(attrs, name) == Some(attrs[name]);
  }
}

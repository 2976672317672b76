/**
 * The servlet-container objects the plugin reads and writes: attribute values, the real
 * HTTP session with its attribute map, request attributes and the response.
 */
module Servlet {
  import opened Wrappers
  import opened Host

  /** GitBlit's `AuthenticationType`; the first three count as standard logins. */
  datatype AuthenticationType = PublicKey | Credentials | CookieAuth | Certificate | Container | HttpHeader {
    predicate IsStandard() {
      PublicKey? || Credentials? || CookieAuth?
    }
  }

  /** The Java objects that end up as attribute values. */
  datatype Value =
    | StringValue(s: string)
    | OptionalValue(inner: Option<Value>)
    | AuthTypeValue(authType: AuthenticationType)
    | OtherValue(className: string)

  /**
   * `setAttribute(name, value)` on a request or session: a null value removes the attribute,
   * as the servlet API specifies.
   */
  function WithAttribute(attrs: map<string, Value>, name: string, value: Option<Value>): (r: map<string, Value>)
    ensures value.None? ==> name !in r
    ensures value.Some? ==> name in r && r[name] == value.value
    ensures forall k :: k != name ==> (k in r <==> k in attrs) && (k in r ==> r[k] == attrs[k])
  {
    if value.None? then attrs - {name} else attrs[name := value.value]
  }

  /** A request or session attribute read with a cast to `String`. */
  datatype StringRead = Absent | Text(s: string) | NotAString

  /** `(String) getAttribute(name)`: null, the string, or a failed cast. */
  function ReadString(attrs: map<string, Value>, name: string): (r: StringRead)
    ensures r.Absent? <==> name !in attrs
    ensures r.Text? <==> name in attrs && attrs[name].StringValue?
    ensures r.Text? ==> r.s == attrs[name].s
  {
    if name !in attrs then Absent
    else if attrs[name].StringValue? then Text(attrs[name].s)
    else NotAString
  }

  /** The real `HttpSession`. */
  class HttpSession {
    var attributes: map<string, Value>

    constructor (attributes: map<string, Value>)
      ensures this.attributes == attributes
    {
      this.attributes := attributes;
    }

    method SetAttribute(name: string, value: Option<Value>)
      modifies this
      ensures attributes == WithAttribute(old(attributes), name, value)
    {
      attributes := WithAttribute(attributes, name, value);
    }

    method RemoveAttribute(name: string)
      modifies this
      ensures attributes == old(attributes) - {name}
    {
      attributes := attributes - {name};
    }
  }

  /** The attributes and headers of an `HttpServletRequest`. */
  class HttpRequest {
    var attributes: map<string, Value>
    const headers: map<string, string>

    constructor (attributes: map<string, Value>, headers: map<string, string>)
      ensures this.attributes == attributes && this.headers == headers
    {
      this.attributes := attributes;
      this.headers := headers;
    }

    method SetAttribute(name: string, value: Option<Value>)
      modifies this
      ensures attributes == WithAttribute(old(attributes), name, value)
    {
      attributes := WithAttribute(attributes, name, value);
    }
  }

  /** The text of a cookie: plain text, or the hex form of a digest. */
  datatype CookieText = Plain(s: string) | Hex(digest: Digest)

  /** A `javax.servlet.http.Cookie`; `maxAge` -1 is the servlet default (a session cookie). */
  datatype Cookie = Cookie(name: string, value: CookieText, maxAge: int, path: Option<string>)

  /** What the plugin writes into an `HttpServletResponse`. */
  class HttpResponse {
    var status: Option<int>
    var message: Option<string>
    var headers: map<string, string>
    var cookies: seq<Cookie>
    var contentType: Option<string>
    var dateHeaders: map<string, int>

    constructor ()
      ensures status.None? && message.None? && headers == map[] && cookies == []
      ensures contentType.None? && dateHeaders == map[]
    {
      status := None;
      message := None;
      headers := map[];
      cookies := [];
      contentType := None;
      dateHeaders := map[];
    }

    /** `setStatus(code)` and `sendError(code)`. */
    method SetStatus(code: int)
      modifies this
      ensures status == Some(code) && message == old(message)
      ensures headers == old(headers) && cookies == old(cookies)
      ensures contentType == old(contentType) && dateHeaders == old(dateHeaders)
    {
      status := Some(code);
    }

    /** `sendError(code, message)`. */
    method SendError(code: int, text: string)
      modifies this
      ensures status == Some(code) && message == Some(text)
      ensures headers == old(headers) && cookies == old(cookies)
      ensures contentType == old(contentType) && dateHeaders == old(dateHeaders)
    {
      status := Some(code);
      message := Some(text);
    }

    method SetHeader(name: string, value: string)
      modifies this
      ensures headers == old(headers)[name := value]
      ensures status == old(status) && message == old(message) && cookies == old(cookies)
      ensures contentType == old(contentType) && dateHeaders == old(dateHeaders)
    {
      headers := headers[name := value];
    }

    method AddCookie(c: Cookie)
      modifies this
      ensures cookies == old(cookies) + [c]
      ensures status == old(status) && message == old(message) && headers == old(headers)
      ensures contentType == old(contentType) && dateHeaders == old(dateHeaders)
    {
      cookies := cookies + [c];
    }

    method SetContentType(value: string)
      modifies this
      ensures contentType == Some(value)
      ensures status == old(status) && message == old(message) && headers == old(headers) && cookies == old(cookies)
      ensures dateHeaders == old(dateHeaders)
    {
      contentType := Some(value);
    }

    /** `setDateHeader(name, millis)`: the time is kept as given, its formatting is the container's. */
    method SetDateHeader(name: string, millis: int)
      modifies this
      ensures dateHeaders == old(dateHeaders)[name := millis]
      ensures status == old(status) && message == old(message) && headers == old(headers) && cookies == old(cookies)
      ensures contentType == old(contentType)
    {
      dateHeaders := dateHeaders[name := millis];
    }
  }
}

/** The API-key extractor of package `auth`: `GetAPIKey` reads the
    `Authorization` header of a request and returns the key it carries, or
    one of two errors. */
module Auth {
  import opened TextFields

  /** Request headers: each header name maps to its values in order. */
  type Header = map<string, seq<string>>

  /** The two ways extraction fails. */
  datatype AuthError =
    | NoAuthHeaderIncluded   // header absent or its value empty
    | MalformedAuthHeader    // value present but not `ApiKey <key>`

  /** A value that may be absent; `Extracted` uses it for Go's nil error. */
  datatype Option<T> = None | Some(value: T)

  /** What `GetAPIKey` returns: the key and the error (None stands for nil). */
  datatype Extracted = Extracted(key: string, err: Option<AuthError>)

  const AuthorizationName: string := "Authorization"
  const ApiKeyScheme: string := "ApiKey"

  /** The first value recorded under `name`, or "" when there is none. */
  function GetFirst(h: Header, name: string): (v: string)
    ensures name !in h || h[name] == [] ==> v == ""
    ensures name in h && h[name] != [] ==> v == h[name][0]
  {
    if name in h && |h[name]| > 0 then h[name][0] else ""
  }

  /** Lookup laws: an entry whose value list starts with `v` reads as `v`
      (the empty string included), and setting one name leaves the
      reading of every other name as it was. */
  lemma GetFirstOfUpdate(h: Header, n: string, m: string, vs: seq<string>, v: string)
    ensures GetFirst(h[n := [v] + vs], n) == v
    ensures m != n ==> GetFirst(h[n := vs], m) == GetFirst(h, m)
  {
  }

  /** The value of the `Authorization` header, as the extractor sees it. */
  function AuthValue(h: Header): string {
    GetFirst(h, AuthorizationName)
  }

  /** Extract the API key from the `Authorization` header: an empty or
      missing value is `NoAuthHeaderIncluded`; a value whose first two
      fields are not `ApiKey` and a key is `MalformedAuthHeader`; otherwise
      the second field is the key. */
  function GetAPIKey(h: Header): (r: Extracted)
    ensures r.err.Some? ==> r.key == ""
    ensures r.err.None? ==> IsField(r.key)
    ensures r.err == Some(NoAuthHeaderIncluded) <==> AuthValue(h) == ""
  {
    var value := AuthValue(h);
    if value == "" then
      Extracted("", Some(NoAuthHeaderIncluded))
    else
      var fields := Fields(value);
      if |fields| < 2 || fields[0] != ApiKeyScheme then
        Extracted("", Some(MalformedAuthHeader))
      else
        Extracted(fields[1], None)
  }

  /** A header set holding exactly one `Authorization` value. */
  function WithAuthorization(value: string): (h: Header)
    ensures AuthValue(h) == value
  {
    map[AuthorizationName := [value]]
  }

  /** `ApiKey <t>` yields `t`, for every key `t` that is one field. */
  lemma ApiKeyValueYieldsKey(h: Header, t: string)
    requires IsField(t)
    requires AuthValue(h) == ApiKeyScheme + " " + t
    ensures GetAPIKey(h) == Extracted(t, None)
  {
    assert IsField(ApiKeyScheme) by {
      assert forall i :: 0 <= i < |ApiKeyScheme| ==> !IsSpace(ApiKeyScheme[i]);
    }
    assert JoinSpaced([ApiKeyScheme, t]) == ApiKeyScheme + " " + t;
    FieldsOfJoinSpaced([ApiKeyScheme, t]);
  }

  /** With no `Authorization` entry the result is "" and `NoAuthHeaderIncluded`. */
  lemma MissingHeaderIsNoAuth(h: Header)
    requires AuthorizationName !in h
    ensures GetAPIKey(h) == Extracted("", Some(NoAuthHeaderIncluded))
  {
  }

  /** A value that is one field only (such as the bare scheme `ApiKey`)
      carries no key: "" and `MalformedAuthHeader`. */
  lemma SingleFieldIsMalformed(h: Header, w: string)
    requires IsField(w)
    requires AuthValue(h) == w
    ensures GetAPIKey(h) == Extracted("", Some(MalformedAuthHeader))
  {
    assert JoinSpaced([w]) == w;
    FieldsOfJoinSpaced([w]);
  }

  /** A value of two fields whose first is not `ApiKey` (such as
      `Bearer <token>`) is rejected although a second field is present. */
  lemma WrongSchemeIsMalformed(h: Header, scheme: string, t: string)
    requires IsField(scheme) && IsField(t) && scheme != ApiKeyScheme
    requires AuthValue(h) == scheme + " " + t
    ensures GetAPIKey(h) == Extracted("", Some(MalformedAuthHeader))
  {
    assert JoinSpaced([scheme, t]) == scheme + " " + t;
    FieldsOfJoinSpaced([scheme, t]);
  }

  /** A non-empty value made of white space only holds no field at all and
      is malformed rather than missing. */
  lemma BlankValueIsMalformed(h: Header)
    requires AuthValue(h) != ""
    requires forall i :: 0 <= i < |AuthValue(h)| ==> IsSpace(AuthValue(h)[i])
    ensures GetAPIKey(h) == Extracted("", Some(MalformedAuthHeader))
  {
    var value := AuthValue(h);
    FieldsKeepAllNonSpace(value);
    BlankRemovesToEmpty(value);
    ConcatEmptyOfFields(Fields(value));
  }

  lemma {:induction false} BlankRemovesToEmpty(s: string)
    requires forall i :: 0 <= i < |s| ==> IsSpace(s[i])
    ensures RemoveSpaces(s) == ""
  {
    if s != [] {
      BlankRemovesToEmpty(s[1..]);
    }
  }

  lemma ConcatEmptyOfFields(ws: seq<string>)
    requires forall i :: 0 <= i < |ws| ==> IsField(ws[i])
    requires Concat(ws) == ""
    ensures ws == []
  {
  }

  /** `ApiKey <t>` in general form: optional leading white space, the
      scheme, a run of white space, the key `t` as one whole field, then
      either the end or white space and anything after it. Such a value
      yields `t`. */
  lemma ApiKeyFormYieldsKey(h: Header, pre: string, sep: string, t: string, post: string)
    requires Blank(pre) && Blank(sep) && sep != [] && IsField(t)
    requires post == [] || IsSpace(post[0])
    requires AuthValue(h) == pre + ApiKeyScheme + sep + t + post
    ensures GetAPIKey(h) == Extracted(t, None)
  {
    assert IsField(ApiKeyScheme) by {
      assert forall i :: 0 <= i < |ApiKeyScheme| ==> !IsSpace(ApiKeyScheme[i]);
    }
    var tail := sep + t + post;
    assert AuthValue(h) == pre + ApiKeyScheme + tail;
    assert tail[0] == sep[0];
    FieldsOfBlankThenField(pre, ApiKeyScheme, tail);
    FieldsOfBlankThenField(sep, t, post);
  }

  /** Success happens only for a value of the form `ApiKey <key>`: the
      value splits as blank prefix, the scheme `ApiKey` as a whole field,
      a non-empty run of white space, the returned key as a whole field,
      and a remainder that is empty or starts with white space. With
      `ApiKeyFormYieldsKey` this characterises success exactly. */
  lemma SuccessShape(h: Header) returns (pre: string, sep: string, post: string)
    requires GetAPIKey(h).err.None?
    ensures Blank(pre) && Blank(sep) && sep != []
    ensures post == [] || IsSpace(post[0])
    ensures AuthValue(h) == pre + ApiKeyScheme + sep + GetAPIKey(h).key + post
  {
    var value := AuthValue(h);
    var fields := Fields(value);
    assert value != "" && |fields| >= 2 && fields[0] == ApiKeyScheme;
    assert GetAPIKey(h).key == fields[1];
    var rest;
    pre, rest := FirstFieldOf(value);
    assert Fields(rest) == fields[1..] && Fields(rest) != [];
    var key := Fields(rest)[0];
    assert key == fields[1] && IsField(key);
    sep, post := FirstFieldOf(rest);
    assert rest == sep + key + post;
    assert value == pre + ApiKeyScheme + sep + key + post;
  }

  // The five rows of the test table.

  /** `Authorization: ApiKey my-secret-key` yields `my-secret-key` and no error. */
  lemma TableValidApiKey()
    ensures GetAPIKey(WithAuthorization("ApiKey my-secret-key")) == Extracted("my-secret-key", None)
  {
    var t := "my-secret-key";
    assert IsField(t) by {
      assert forall i :: 0 <= i < |t| ==> !IsSpace(t[i]);
    }
    assert "ApiKey my-secret-key" == ApiKeyScheme + " " + t;
    ApiKeyValueYieldsKey(WithAuthorization("ApiKey my-secret-key"), t);
  }

  /** No headers at all: "" and `NoAuthHeaderIncluded`. */
  lemma TableMissingHeader()
    ensures GetAPIKey(map[]) == Extracted("", Some(NoAuthHeaderIncluded))
  {
  }

  /** `Authorization: ApiKey` with no key: "" and `MalformedAuthHeader`. */
  lemma TableSchemeOnly()
    ensures GetAPIKey(WithAuthorization("ApiKey")) == Extracted("", Some(MalformedAuthHeader))
  {
  }

  /** `Authorization: Bearer my-secret-key`: "" and `MalformedAuthHeader`. */
  lemma TableWrongScheme()
    ensures GetAPIKey(WithAuthorization("Bearer my-secret-key")) == Extracted("", Some(MalformedAuthHeader))
  {
  }

  /** `Authorization` present with the empty value: treated as missing. */
  lemma TableEmptyHeader()
    ensures GetAPIKey(WithAuthorization("")) == Extracted("", Some(NoAuthHeaderIncluded))
  {
  }
}

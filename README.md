# API-key extraction from the `Authorization` header

This project models `GetAPIKey` from package `auth` of the learn-cicd-starter
service. The function takes the headers of an HTTP request and reads the
`Authorization` header field (section 11.6.2 of RFC 9110). It returns the API
key carried as `ApiKey <key>`, or one of two errors:

- `NoAuthHeaderIncluded` when the header is missing or its value is empty;
- `MalformedAuthHeader` when the value is present but its first two
  whitespace-separated fields are not the scheme `ApiKey` and a key.

On an error the returned key is the empty string.

The implementation file of `GetAPIKey` is not part of this model. Its
behaviour is pinned down by the table-driven test `TestGetAPIKey`
(`internal/auth/auth_test.go`). Every separator in the table's values is a
single ASCII space. How the value is split into fields is this
model's own choice: it splits like Go's `strings.Fields`, on any run of white
space, and takes the first two fields. Trailing fields are ignored.

Layout:

- `fields.dfy`, module `TextFields`: whitespace-separated fields of a string.
  This follows Go's `strings.Fields`, with the white-space set of
  `unicode.IsSpace` written out. It has two main lemmas. Splitting undoes
  joining with single spaces. Splitting loses nothing but the white space.
  Two further lemmas read the first field off the front of a string, in
  both directions.
- `auth.dfy`, module `Auth`: the header map, the error kinds, the result pair
  `(key, err)` with a nil error written as `None`, and `GetAPIKey`. It also
  holds general lemmas for each outcome and one lemma for each row of the
  test table. Two lemmas together characterise success exactly: it happens
  precisely when the value has the form `ApiKey <key>`.

## Model

| member | source | states |
|---|---|---|
| `Auth.GetAPIKey` | internal/auth/auth_test.go:51-65 | whenever an error is returned the key is ""; on success the key is one non-empty field without white space; the error is `NoAuthHeaderIncluded` exactly when the `Authorization` value is missing or empty |
| `Auth.GetFirstOfUpdate` | internal/auth/auth_test.go:41-46 | a header entry whose value list starts with `v` reads as `v`, even when `v` is ""; setting one name leaves the reading of every other name unchanged |
| `Auth.ApiKeyValueYieldsKey` | internal/auth/auth_test.go:17-22 | for every key `t` that is a single non-space field, the value `"ApiKey " + t` yields `t` with a nil error |
| `Auth.ApiKeyFormYieldsKey` | internal/auth/auth_test.go:17-22 | any value made of optional white space, `ApiKey`, a run of white space, a key `t` that is one whole field, then the end or white space and anything after it, yields `t` with a nil error |
| `Auth.MissingHeaderIsNoAuth` | internal/auth/auth_test.go:23-28 | headers without an `Authorization` entry yield "" and `NoAuthHeaderIncluded` |
| `Auth.SingleFieldIsMalformed` | internal/auth/auth_test.go:29-34 | a value of exactly one field, the bare scheme `ApiKey` included, yields "" and `MalformedAuthHeader` |
| `Auth.WrongSchemeIsMalformed` | internal/auth/auth_test.go:35-40 | a value `scheme + " " + t` with a scheme other than `ApiKey` yields "" and `MalformedAuthHeader`, although a second field is present |
| `Auth.BlankValueIsMalformed` | internal/auth/auth_test.go:41-46 | only the empty value counts as missing; a non-empty value of white space alone yields "" and `MalformedAuthHeader` |
| `Auth.SuccessShape` | internal/auth/auth_test.go:17-22 | success happens only when the value has the form `ApiKey <key>`: it is a blank prefix, then `ApiKey` as a whole field, then a non-empty run of white space, then the returned key as a whole field, then the end or white space |
| `Auth.TableValidApiKey` | internal/auth/auth_test.go:17-22 | `{"Authorization": ["ApiKey my-secret-key"]}` yields `("my-secret-key", nil)` |
| `Auth.TableMissingHeader` | internal/auth/auth_test.go:23-28 | `{}` yields `("", NoAuthHeaderIncluded)` |
| `Auth.TableSchemeOnly` | internal/auth/auth_test.go:29-34 | `{"Authorization": ["ApiKey"]}` yields `("", MalformedAuthHeader)` |
| `Auth.TableWrongScheme` | internal/auth/auth_test.go:35-40 | `{"Authorization": ["Bearer my-secret-key"]}` yields `("", MalformedAuthHeader)` |
| `Auth.TableEmptyHeader` | internal/auth/auth_test.go:41-46 | `{"Authorization": [""]}` yields `("", NoAuthHeaderIncluded)` |
| `TextFields.Fields` | internal/auth/auth_test.go:29-40 | splitting a header value gives fields that are each non-empty and hold no white space |
| `TextFields.FieldsOfJoinSpaced` | internal/auth/auth_test.go:17-40 | splitting undoes joining: fields joined by single spaces split back into the same fields, which is how `ApiKey <key>` and `Bearer <key>` are read |
| `TextFields.FieldsOfBlankThenField` | internal/auth/auth_test.go:17-40 | a value made of white space, a field, and then the end or white space splits into that field followed by the fields of the remainder |
| `TextFields.FirstFieldOf` | internal/auth/auth_test.go:17-40 | conversely, the first field of any value comes after a blank prefix and ends at white space or at the end, and the remaining fields come from what follows it |
| `TextFields.FieldsKeepAllNonSpace` | internal/auth/auth_test.go:17-22 | the fields of a value, concatenated, are the value with its white space deleted, so no key character is lost or invented |

## Left out

- `Auth.GetFirst` stands in for `net/http`'s `Header.Get` and is not stated beyond its lookup laws. `Header.Get` canonicalises only the name it is asked for, and `Authorization` is already canonical. So a literal lookup of `Authorization` finds the same entry, provided the map's keys are canonical as `http.Header` keeps them. Entries stored under non-canonical names are not modelled.
- The test never shows values separated by a tab, values with leading white space, or values with repeated separators, such as `"ApiKey\tk"`, `" ApiKey k"` and `"ApiKey  k"`. The model accepts all three with key `k`, because it splits on runs of white space. An implementation that splits on one ASCII space would reject the first two and return an empty key for the third.
- Only the first `Authorization` value is consulted. Nothing is stated about later values.
- The model accepts only the scheme spelled exactly `ApiKey`. The test never shows case-variant schemes such as `apikey` (section 11.1 of RFC 9110), so nothing is proved about them.
- `Auth.GetAPIKey` ignores fields after the key, such as `"ApiKey k extra"`. `Auth.ApiKeyFormYieldsKey` and `Auth.SuccessShape` state this through their remainder `post`. The test table does not pin this behaviour down.
- Header values are modelled as sequences of Unicode characters, while Go strings are bytes. Invalid UTF-8 has no counterpart in the model, for example a lone obs-text byte 0x85 or 0xA0. Go's `strings.Fields` does not treat such a byte as white space, but the model's `IsSpace` treats the characters U+0085 and U+00A0 as white space.
- Errors are a closed datatype compared by kind. Go's error values, their messages and identity comparison (`errors.New`, `err.Error()`) are not modelled.
- The Go test harness (`t.Run`, `t.Errorf` and the table loop) is scaffolding and is not modelled.
- Purity and idempotence need no lemma. `GetAPIKey` is a Dafny function of its argument alone, so equal inputs give equal results.

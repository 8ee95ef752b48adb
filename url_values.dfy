/** net/url.Values: a request's query or form parameters. */
module UrlValues {

  /** Each key maps to the values given for it, in order. */
  type Values = map<string, seq<string>>

  /** Values.Get: the first value given for `key`, or "" when there is none. */
  function Get(q: Values, key: string): string {
    if key in q && |q[key]| > 0 then q[key][0] else ""
  }

  /** The values of `key`, none when it is absent. */
  function ValuesOf(q: Values, key: string): seq<string> {
    if key in q then q[key] else []
  }

  /** Request.ParseForm's r.Form: for each key, the values of the
      url-encoded body (r.PostForm) followed by those of the URL query. */
  function ParseForm(postForm: Values, query: Values): Values {
    map key | key in postForm.Keys + query.Keys :: ValuesOf(postForm, key) + ValuesOf(query, key)
  }

  /** r.Form holds every value of the body and of the query, the body's first;
      so FormValue-style reads take the body's value when the body gives one
      and the query's otherwise. */
  lemma ParseFormGet(postForm: Values, query: Values, key: string)
    ensures ValuesOf(ParseForm(postForm, query), key) == ValuesOf(postForm, key) + ValuesOf(query, key)
    ensures Get(ParseForm(postForm, query), key) ==
              if |ValuesOf(postForm, key)| > 0 then postForm[key][0] else Get(query, key)
  {
    var form := ParseForm(postForm, query);
    if key !in postForm && key !in query {
      assert key !in form;
    } else {
      assert form[key] == ValuesOf(postForm, key) + ValuesOf(query, key);
    }
  }
}

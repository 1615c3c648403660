/**
 * The parts of net/http and context that the authorization core touches:
 * request-scoped context values and URL query strings.
 */
module Http {
  import opened Wrappers
  import opened Tokens

  /**
   * A Go context key. Two keys are equal only when they have the same
   * package-local type and the same value, so the key type's package is
   * part of the key: web.contextKey("userID") and main.contextKey("userID")
   * are different keys.
   */
  datatype ContextKey = ContextKey(package: string, name: string)

  /** The values a request context carries; a key that is absent reads as nil. */
  type Context = map<ContextKey, Value>

  /** context.WithValue: a derived context that answers `v` for `k`. */
  function WithValue(ctx: Context, k: ContextKey, v: Value): (r: Context)
    ensures k in r && r[k] == v
    ensures forall k' :: k' != k ==> (k' in r <==> k' in ctx)
    ensures forall k' :: k' != k && k' in ctx ==> r[k'] == ctx[k']
  {
    ctx[k := v]
  }

  /** ctx.Value(k).(string): the string stored under `k`, if a string is stored there. */
  function StringValue(ctx: Context, k: ContextKey): Option<string> {
    if k in ctx && ctx[k].Str? then Some(ctx[k].s) else None
  }

  /** A URL query, reduced to the first value of each parameter. */
  type Query = map<string, string>

  /** url.Values.Get: the first value of the parameter, "" when it is absent. */
  function QueryGet(q: Query, name: string): string {
    if name in q then q[name] else ""
  }
}

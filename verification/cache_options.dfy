/**
 * `CacheOptions`: the cache configuration and the post-configuration step
 * that normalises the global key prefix.
 */
module CacheOptions {
  import opened Common
  import opened Text

  datatype Redis = Redis(
    useTimedTask: bool,
    defaultDatabase: int,
    timedTaskIndex: int,
    connectionString: Option<string>,
    password: Option<string>,
    maxMessageSize: int)

  datatype Options = Options(prefix: Option<string>, cacheType: Option<string>, redis: Option<Redis>)

  /**
   * `PostConfigure`: a null or blank prefix becomes the empty string, any
   * other prefix loses its surrounding white space; the cache type and the
   * Redis settings are left alone.
   */
  function PostConfigure(o: Options): (r: Options)
    ensures r.cacheType == o.cacheType && r.redis == o.redis
    ensures r.prefix.Some?
    ensures r.prefix == Some("") <==> IsNullOrWhiteSpace(o.prefix)
    ensures !IsNullOrWhiteSpace(o.prefix) ==> r.prefix == Some(Trim(o.prefix.value))
    ensures var p := r.prefix.value; |p| > 0 ==> !IsWhiteSpace(p[0]) && !IsWhiteSpace(p[|p| - 1])
  {
    o.(prefix := Some(if IsNullOrWhiteSpace(o.prefix) then "" else Trim(o.prefix.value)))
  }

  /** Post-configuring twice gives the same options as post-configuring once. */
  lemma PostConfigureIdempotent(o: Options)
    ensures PostConfigure(PostConfigure(o)) == PostConfigure(o)
  {
    var once := PostConfigure(o);
    if !IsNullOrWhiteSpace(o.prefix) {
      TrimNotBlank(o.prefix.value);
      TrimIdempotent(o.prefix.value);
    }
  }
}

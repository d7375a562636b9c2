/** The client's configuration record and its two checks. */
module Configuration {
  import opened Basics
  import opened Text
  import opened Errors

  /** `Config`, the contents of the configuration file. */
  datatype Config = Config(serverUrl: string, token: string)

  /** `PLACEHOLDER_URL`, the address written by `config init`. */
  const PlaceholderUrl := "http://10.61.214.187:3000"

  /** `Config::is_placeholder`: the URL is blank, or exactly the placeholder. */
  function IsPlaceholder(config: Config): (r: bool)
    ensures r <==> AllWhitespace(config.serverUrl) || config.serverUrl == PlaceholderUrl
  {
    TrimEmpty(config.serverUrl);
    Trim(config.serverUrl) == [] || config.serverUrl == PlaceholderUrl
  }

  /** `Config::validate`: the token must not be blank. */
  function Validate(config: Config): (r: Result<(), DialError>)
    ensures r.Err? <==> AllWhitespace(config.token)
    ensures r.Err? ==> r.error == Unauthorized
  {
    TrimEmpty(config.token);
    if Trim(config.token) == [] then Err(Unauthorized) else Ok(())
  }

  /** The record `write_default` writes. */
  function DefaultConfig(): (r: Config)
    ensures r.serverUrl == PlaceholderUrl
    ensures IsPlaceholder(r) && Validate(r).Ok?
  {
    var r := Config(PlaceholderUrl, "change-me-secret");
    assert !IsWhitespace(r.token[0]);
    r
  }

  /** The comparison with the placeholder is exact: the placeholder with
      whitespace around it is not a placeholder, nor is any other URL
      with a non-whitespace character. */
  lemma {:induction false} PaddedPlaceholderIsNot(before: string, after: string, token: string)
    requires AllWhitespace(before) && AllWhitespace(after) && before + after != []
    ensures !IsPlaceholder(Config(before + PlaceholderUrl + after, token))
  {
    var url := before + PlaceholderUrl + after;
    assert url[|before|] == 'h' && !IsWhitespace(url[|before|]);
    assert url != PlaceholderUrl by {
      if |before| > 0 {
        assert !IsWhitespace(PlaceholderUrl[0]);
      } else {
        assert |url| > |PlaceholderUrl|;
      }
    }
  }

  /** Validation looks at the token only. */
  lemma {:induction false} ValidateIgnoresUrl(a: Config, b: Config)
    requires a.token == b.token
    ensures Validate(a) == Validate(b)
  {
  }
}

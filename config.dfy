/**
 * The field validators of src/ace_skyspark_cli/config.py and the masking done by
 * `Config.to_dict`. Each validator returns the normalised value, or the
 * ValueError that pydantic would report for the field.
 */
module Config {
  import opened Wrappers
  import opened PyValue
  import opened Strings

  const JwtEmptyMessage := "FlightDeck JWT token cannot be empty"
  const UrlEmptyMessage := "SkySpark URL cannot be empty"
  const UrlSchemeMessage := "SkySpark URL must start with http:// or https://"
  const FieldEmptyMessage := "Field cannot be empty"

  /** The shared rule of the blank-rejecting validators: an empty or all-whitespace value raises ValueError with `msg`; any other value is returned stripped. */
  function StripRequired(v: string, msg: string): Result<string, Exception> {
    if v == "" || Strip(v) == "" then Err(ValueError(msg)) else Ok(Strip(v))
  }

  /** `FlightDeckConfig.validate_jwt`: a blank token is refused; otherwise it is trimmed. */
  function ValidateJwt(v: string): (r: Result<string, Exception>)
    ensures r.Err? <==> AllIn(v, IsSpace)
    ensures r.Err? ==> r.error == ValueError(JwtEmptyMessage)
    ensures r.Ok? ==> r.value != "" && Trimmed(r.value) && PaddedBy(v, r.value)
  {
    StripSpec(v);
    StripRequired(v, JwtEmptyMessage)
  }

  /** `SkySparkConfig.validate_not_empty` (project and user): a blank value is refused; otherwise it is trimmed. */
  function ValidateNotEmpty(v: string): (r: Result<string, Exception>)
    ensures r.Err? <==> AllIn(v, IsSpace)
    ensures r.Err? ==> r.error == ValueError(FieldEmptyMessage)
    ensures r.Ok? ==> r.value != "" && Trimmed(r.value) && PaddedBy(v, r.value)
  {
    StripSpec(v);
    StripRequired(v, FieldEmptyMessage)
  }

  predicate HasScheme(v: string) {
    StartsWith(v, "http://") || StartsWith(v, "https://")
  }

  /**
   * `SkySparkConfig.validate_url`: refuses a blank URL and a URL that does not
   * start with `http://` or `https://` once trimmed. Otherwise the trimmed URL
   * loses its trailing slashes and ends in `/api`, which is appended only when
   * it is not already there.
   */
  function ValidateUrl(v: string): (r: Result<string, Exception>)
    ensures AllIn(v, IsSpace) ==> r == Err(ValueError(UrlEmptyMessage))
    ensures !AllIn(v, IsSpace) && !HasScheme(Strip(v)) ==> r == Err(ValueError(UrlSchemeMessage))
    ensures r.Ok? <==> !AllIn(v, IsSpace) && HasScheme(Strip(v))
    ensures r.Ok? ==> EndsWith(r.value, "/api")
    ensures r.Ok? ==> var base := TrimEnd(Strip(v), IsSlash);
                      if EndsWith(base, "/api") then r.value == base else r.value == base + "/api"
  {
    StripSpec(v);
    if v == "" || Strip(v) == "" then Err(ValueError(UrlEmptyMessage))
    else
      var u := Strip(v);
      if !(StartsWith(u, "http://") || StartsWith(u, "https://")) then Err(ValueError(UrlSchemeMessage))
      else
        var base := TrimEnd(u, IsSlash);
        if EndsWith(base, "/api") then Ok(base)
        else
          var w := base + "/api";
          assert w[|w| - 4..] == "/api";
          Ok(w)
  }

  /** A normalised URL that still carries its scheme is a fixed point: validating it again changes nothing. */
  lemma ValidateUrlIdempotent(v: string, u: string)
    requires ValidateUrl(v) == Ok(u) && HasScheme(u)
    ensures ValidateUrl(u) == Ok(u)
  {
    assert u[|u| - 4..][3] == u[|u| - 1];
    if StartsWith(u, "http://") {
      assert u[..7][0] == u[0];
    } else {
      assert u[..8][0] == u[0];
    }
    assert u[0] == 'h' && u[|u| - 1] == 'i';
    StripTrimmed(u);
    assert !AllIn(u, IsSpace) by {
      assert !IsSpace(u[0]);
    }
    assert TrimEnd(u, IsSlash) == u;
  }

  /**
   * The scheme's own slashes are trailing slashes too: a bare `http://` or
   * `https://` is accepted but normalised to `http:/api` or `https:/api`,
   * which validation then refuses.
   */
  lemma BareSchemeUrl(scheme: string)
    requires scheme == "http://" || scheme == "https://"
    ensures ValidateUrl(scheme) == Ok(scheme[..|scheme| - 2] + "/api")
    ensures ValidateUrl(scheme[..|scheme| - 2] + "/api") == Err(ValueError(UrlSchemeMessage))
  {
    assert HasScheme(scheme) && EndsWith(scheme, "://");
    ColonSlashesStripped(scheme);
    NormalisedBareSchemeRefused(scheme);
  }

  /** A URL ending in `://` loses both slashes when trailing slashes are stripped, before `/api` is appended. */
  lemma ColonSlashesStripped(u: string)
    requires HasScheme(u) && EndsWith(u, "://")
    ensures ValidateUrl(u) == Ok(u[..|u| - 2] + "/api")
  {
    var n := |u|;
    assert u[n - 3..][0] == u[n - 3] && u[n - 3..][1] == u[n - 2] && u[n - 3..][2] == u[n - 1];
    if StartsWith(u, "http://") {
      assert u[..7][0] == u[0];
    } else {
      assert u[..8][0] == u[0];
    }
    assert u[0] == 'h' && u[n - 1] == '/' && u[n - 2] == '/' && u[n - 3] == ':';
    StripTrimmed(u);
    assert !IsSpace(u[0]);
    TwoTrailingSlashes(u);
    var base := u[..n - 2];
    assert base[|base| - 4..][3] == base[|base| - 1];
  }

  /** Two trailing slashes after a non-slash are exactly what stripping trailing slashes removes. */
  lemma TwoTrailingSlashes(s: string)
    requires |s| >= 3 && s[|s| - 1] == '/' && s[|s| - 2] == '/' && s[|s| - 3] != '/'
    ensures TrimEnd(s, IsSlash) == s[..|s| - 2]
  {
    var n := |s|;
    assert s[..n - 1][..n - 2] == s[..n - 2];
    assert s[..n - 1][n - 2] == '/';
    assert s[..n - 2][n - 3] == s[n - 3];
  }

  lemma NormalisedBareSchemeRefused(scheme: string)
    requires scheme == "http://" || scheme == "https://"
    ensures ValidateUrl(scheme[..|scheme| - 2] + "/api") == Err(ValueError(UrlSchemeMessage))
  {
    var w := scheme[..|scheme| - 2] + "/api";
    assert w[0] == 'h' && w[|w| - 1] == 'i';
    StripTrimmed(w);
    assert !AllIn(w, IsSpace) by {
      assert !IsSpace(w[0]);
    }
    assert !HasScheme(w) by {
      if scheme == "http://" {
        assert w[6] == 'a';
        assert w[..7][6] != "http://"[6];
        assert w[..8][4] != "https://"[4];
      } else {
        assert w[4] == 's' && w[7] == 'a';
        assert w[..7][4] != "http://"[4];
        assert w[..8][7] != "https://"[7];
      }
    }
  }

  /** The log levels `validate_log_level` accepts. */
  const ValidLevels: set<string> := {"DEBUG", "INFO", "WARNING", "ERROR", "CRITICAL"}

  /** `AppConfig.validate_log_level`: the upper-cased input, if it is one of the five levels. */
  function ValidateLogLevel(v: string): (r: Result<string, Exception>)
    ensures r.Ok? <==> Upper(v) in ValidLevels
    ensures r.Ok? ==> r.value == Upper(v)
    ensures r.Err? ==> r.error == ValueError("Invalid log level: " + Upper(v))
  {
    var u := Upper(v);
    if u !in ValidLevels then Err(ValueError("Invalid log level: " + u)) else Ok(u)
  }

  /** The level check ignores case: a value and its upper-cased form validate alike, so an accepted level is a fixed point. */
  lemma ValidateLogLevelCaseInsensitive(v: string)
    ensures ValidateLogLevel(Upper(v)) == ValidateLogLevel(v)
    ensures ValidateLogLevel(v).Ok? ==> ValidateLogLevel(ValidateLogLevel(v).value) == ValidateLogLevel(v)
  {
    UpperIdempotent(v);
  }

  /** `"info"` is accepted as `"INFO"`. */
  lemma LowerCaseLevelAccepted()
    ensures ValidateLogLevel("info") == Ok("INFO")
  {
    assert Upper("info") == "INFO";
  }

  const MaskedValue := "***MASKED***"

  /**
   * `Config.to_dict`, over the three dumped settings objects: the FlightDeck
   * `jwt` and the SkySpark `password` are always masked and every other field
   * is reported as dumped.
   */
  function ToDict(flightdeck: Dict, skyspark: Dict, app: Dict): (d: Dict)
    ensures d.Keys == {"flightdeck", "skyspark", "app"}
    ensures d["flightdeck"].JObj? && d["flightdeck"].fields.Keys == flightdeck.Keys + {"jwt"}
    ensures d["flightdeck"].fields["jwt"] == JStr(MaskedValue)
    ensures forall k :: k in flightdeck && k != "jwt" ==> d["flightdeck"].fields[k] == flightdeck[k]
    ensures d["skyspark"].JObj? && d["skyspark"].fields.Keys == skyspark.Keys + {"password"}
    ensures d["skyspark"].fields["password"] == JStr(MaskedValue)
    ensures forall k :: k in skyspark && k != "password" ==> d["skyspark"].fields[k] == skyspark[k]
    ensures d["app"] == JObj(app)
  {
    map[
      "flightdeck" := JObj(flightdeck + map["jwt" := JStr(MaskedValue)]),
      "skyspark" := JObj(skyspark + map["password" := JStr(MaskedValue)]),
      "app" := JObj(app)
    ]
  }

  /** The reported configuration does not depend on the secrets: changing the JWT or the password leaves it unchanged. */
  lemma ToDictHidesSecrets(flightdeck: Dict, skyspark: Dict, app: Dict, jwt: Json, password: Json)
    ensures ToDict(flightdeck["jwt" := jwt], skyspark["password" := password], app) == ToDict(flightdeck, skyspark, app)
  {
    assert flightdeck["jwt" := jwt] + map["jwt" := JStr(MaskedValue)] == flightdeck + map["jwt" := JStr(MaskedValue)];
    assert skyspark["password" := password] + map["password" := JStr(MaskedValue)] == skyspark + map["password" := JStr(MaskedValue)];
  }
}

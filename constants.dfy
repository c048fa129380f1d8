/** The plan table and the configuration every other module reads, with the
    defaults that apply when the environment leaves a variable unset. The
    environment (`process.env`) is a map from variable name to text. */
module Constants {
  import opened Common
  import Strings

  datatype Plan = Plan(usd: nat, name: string, originalPrice: Option<nat>, discount: Option<nat>)

  /** The three licences on sale, keyed by plan name. */
  const PLAN_PRICES: map<string, Plan> := map[
    "Bot BNC" := Plan(150, "Bot BNC", None, None),
    "Bot Banesco" := Plan(150, "Bot Banesco", None, None),
    "Paquete Ultimate Bot" := Plan(249, "Paquete Ultimate Bot", Some(300), Some(20))
  ]

  /** Allowed relative difference between the quoted and the received amount (0.1%). */
  const AMOUNT_TOLERANCE: real := 0.001

  datatype Config = Config(
    expiryHours: int,
    minConfirmations: int,
    priceUpdateInterval: int,
    allowedCountries: seq<string>,
    rateLimitRequests: int,
    rateLimitWindowMs: int,
    network: string)

  /** `parseInt(process.env[name] || fallback)` */
  function EnvInt(env: map<string, string>, name: string, fallback: string): Option<int>
  {
    Strings.ParseInt(ValueOr(env, name, fallback))
  }

  /** The configuration read from the environment; None when a numeric
      variable does not start with a number (parseInt would give NaN). */
  function LoadConfig(env: map<string, string>): Option<Config>
  {
    var expiry := EnvInt(env, "PAYMENT_EXPIRY_HOURS", "72");
    var confirmations := EnvInt(env, "MIN_CONFIRMATIONS", "3");
    var interval := EnvInt(env, "PRICE_UPDATE_INTERVAL", "120");
    var requests := EnvInt(env, "RATE_LIMIT_REQUESTS", "5");
    var window := EnvInt(env, "RATE_LIMIT_WINDOW_MS", "900000");
    if expiry.None? || confirmations.None? || interval.None? || requests.None? || window.None? then None
    else Some(Config(
      expiry.value,
      confirmations.value,
      interval.value,
      Strings.Split(ValueOr(env, "ALLOWED_COUNTRIES", "VE,CO"), ','),
      requests.value,
      window.value,
      ValueOr(env, "DASH_NETWORK", "testnet")))
  }

  const DEFAULT_CONFIG: Config := Config(72, 3, 120, ["VE", "CO"], 5, 900000, "testnet")

  lemma DefaultInt(name: string, fallback: string, n: nat)
    requires fallback == Strings.NatToString(n)
    ensures EnvInt(map[], name, fallback) == Some(n)
  {
    Strings.ParseIntOfNatToString(n);
  }

  lemma DefaultExpiry()
    ensures EnvInt(map[], "PAYMENT_EXPIRY_HOURS", "72") == Some(72)
  {
    assert "72" == Strings.NatToString(72) by { assert Strings.NatToString(7) == "7"; }
    DefaultInt("PAYMENT_EXPIRY_HOURS", "72", 72);
  }

  lemma DefaultConfirmations()
    ensures EnvInt(map[], "MIN_CONFIRMATIONS", "3") == Some(3)
  {
    DefaultInt("MIN_CONFIRMATIONS", "3", 3);
  }

  lemma DefaultInterval()
    ensures EnvInt(map[], "PRICE_UPDATE_INTERVAL", "120") == Some(120)
  {
    assert "120" == Strings.NatToString(120) by { assert Strings.NatToString(12) == "12"; }
    DefaultInt("PRICE_UPDATE_INTERVAL", "120", 120);
  }

  lemma DefaultRequests()
    ensures EnvInt(map[], "RATE_LIMIT_REQUESTS", "5") == Some(5)
  {
    DefaultInt("RATE_LIMIT_REQUESTS", "5", 5);
  }

  /** Ten times a positive number is written as that number followed by a zero. */
  lemma TimesTen(n: nat)
    requires n >= 1
    ensures Strings.NatToString(10 * n) == Strings.NatToString(n) + "0"
  {
    assert (10 * n) / 10 == n && (10 * n) % 10 == 0;
  }

  lemma DefaultWindow()
    ensures EnvInt(map[], "RATE_LIMIT_WINDOW_MS", "900000") == Some(900000)
  {
    assert "900000" == Strings.NatToString(900000) by {
      assert Strings.NatToString(9) == "9";
      TimesTen(9);
      TimesTen(90);
      TimesTen(900);
      TimesTen(9000);
      TimesTen(90000);
    }
    DefaultInt("RATE_LIMIT_WINDOW_MS", "900000", 900000);
  }

  lemma DefaultCountries()
    ensures Strings.Split("VE,CO", ',') == ["VE", "CO"]
  {
    assert Strings.Join(["VE", "CO"], ',') == "VE,CO";
    Strings.SplitJoin(["VE", "CO"], ',');
  }

  /** The configuration assembled from numeric values that parsed. */
  lemma LoadConfigOf(env: map<string, string>, expiry: int, confirmations: int, interval: int,
                     requests: int, window: int)
    requires EnvInt(env, "PAYMENT_EXPIRY_HOURS", "72") == Some(expiry)
    requires EnvInt(env, "MIN_CONFIRMATIONS", "3") == Some(confirmations)
    requires EnvInt(env, "PRICE_UPDATE_INTERVAL", "120") == Some(interval)
    requires EnvInt(env, "RATE_LIMIT_REQUESTS", "5") == Some(requests)
    requires EnvInt(env, "RATE_LIMIT_WINDOW_MS", "900000") == Some(window)
    ensures LoadConfig(env) == Some(Config(expiry, confirmations, interval,
      Strings.Split(ValueOr(env, "ALLOWED_COUNTRIES", "VE,CO"), ','), requests, window,
      ValueOr(env, "DASH_NETWORK", "testnet")))
  {
  }

  /** With nothing set in the environment every value takes its default. */
  lemma DefaultsWhenUnset()
    ensures LoadConfig(map[]) == Some(DEFAULT_CONFIG)
  {
    DefaultExpiry();
    DefaultConfirmations();
    DefaultInterval();
    DefaultRequests();
    DefaultWindow();
    LoadConfigOf(map[], 72, 3, 120, 5, 900000);
    assert ValueOr(map[], "ALLOWED_COUNTRIES", "VE,CO") == "VE,CO";
    DefaultCountries();
  }

  /** Exactly three plans are sold, at 150, 150 and 249 USD. */
  lemma PlanTable()
    ensures PLAN_PRICES.Keys == {"Bot BNC", "Bot Banesco", "Paquete Ultimate Bot"}
    ensures PLAN_PRICES["Bot BNC"].usd == 150
    ensures PLAN_PRICES["Bot Banesco"].usd == 150
    ensures PLAN_PRICES["Paquete Ultimate Bot"].usd == 249
    ensures forall p :: p in PLAN_PRICES ==> PLAN_PRICES[p].name == p
  {
  }
}

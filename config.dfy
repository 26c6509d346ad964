/**
 * The scan configuration record (src/config.rs): its defaults and its
 * by-value setters, each of which replaces one field.
 */
module Config {
  import opened Wrappers
  import opened Types

  datatype ScanConfig = ScanConfig(
    rateLimit: u32,
    timeoutSeconds: u64,
    maxConcurrent: usize,
    followRedirects: bool,
    respectRobotsTxt: bool,
    userAgent: Option<string>,
    filterPattern: Option<string>)

  /** `ScanConfig::default` */
  function Default(): (c: ScanConfig)
    ensures c.rateLimit == 10 && c.timeoutSeconds == 30 && c.maxConcurrent == 10
    ensures c.followRedirects && c.respectRobotsTxt
    ensures c.userAgent == Some("Endpointo/0.1.0") && c.filterPattern.None?
  {
    ScanConfig(10, 30, 10, true, true, Some("Endpointo/0.1.0"), None)
  }

  /** `ScanConfig::new` is the default configuration. */
  function New(): (c: ScanConfig)
    ensures c == Default()
  {
    Default()
  }

  function RateLimit(c: ScanConfig, rate: u32): (r: ScanConfig)
    ensures r.rateLimit == rate && r == c.(rateLimit := rate)
  {
    c.(rateLimit := rate)
  }

  function Timeout(c: ScanConfig, seconds: u64): (r: ScanConfig)
    ensures r.timeoutSeconds == seconds && r == c.(timeoutSeconds := seconds)
  {
    c.(timeoutSeconds := seconds)
  }

  function MaxConcurrent(c: ScanConfig, max: usize): (r: ScanConfig)
    ensures r.maxConcurrent == max && r == c.(maxConcurrent := max)
  {
    c.(maxConcurrent := max)
  }

  function FollowRedirects(c: ScanConfig, follow: bool): (r: ScanConfig)
    ensures r.followRedirects == follow && r == c.(followRedirects := follow)
  {
    c.(followRedirects := follow)
  }

  function RespectRobotsTxt(c: ScanConfig, respect: bool): (r: ScanConfig)
    ensures r.respectRobotsTxt == respect && r == c.(respectRobotsTxt := respect)
  {
    c.(respectRobotsTxt := respect)
  }

  function UserAgent(c: ScanConfig, ua: string): (r: ScanConfig)
    ensures r.userAgent == Some(ua) && r == c.(userAgent := Some(ua))
  {
    c.(userAgent := Some(ua))
  }

  function Filter(c: ScanConfig, pattern: string): (r: ScanConfig)
    ensures r.filterPattern == Some(pattern) && r == c.(filterPattern := Some(pattern))
  {
    c.(filterPattern := Some(pattern))
  }

  /** Each setter leaves every other field as it was: the fields it does not name agree. */
  lemma SettersFrame(c: ScanConfig, rate: u32, ua: string, pattern: string, respect: bool)
    ensures var r := RateLimit(c, rate);
      r.timeoutSeconds == c.timeoutSeconds && r.maxConcurrent == c.maxConcurrent
      && r.followRedirects == c.followRedirects && r.respectRobotsTxt == c.respectRobotsTxt
      && r.userAgent == c.userAgent && r.filterPattern == c.filterPattern
    ensures var r := Filter(c, pattern);
      r.rateLimit == c.rateLimit && r.timeoutSeconds == c.timeoutSeconds
      && r.respectRobotsTxt == c.respectRobotsTxt && r.userAgent == c.userAgent
    ensures Filter(RespectRobotsTxt(c, respect), pattern) == RespectRobotsTxt(Filter(c, pattern), respect)
    ensures UserAgent(UserAgent(c, ua), pattern) == UserAgent(c, pattern)
  {
  }
}

/**
 * `replaceValues` and `ConfigTemplate` (main.go): the tunnel client's INI
 * configuration is the fixed template with its `%...%` placeholders filled in
 * by a chain of `strings.Replace` calls.
 */
module ConfigRender {
  import opened GoStrings
  import opened GoStrconv
  import opened TextLines

  /** The fields of Go's `UserConfig`: decrypted remote fields, then command-line fields. */
  datatype UserConfig = UserConfig(
    serverAddr: string,
    serverPort: int,
    token: string,
    subdomainHost: string,
    localAddr: string,
    localPort: int,
    debug: bool,
    version: bool)

  /** The placeholder `%w%` for the key `w`. */
  function Placeholder(w: string): (p: string)
  {
    "%" + w + "%"
  }

  /** The two-valued log level policy: `trace` with `--debug`, `error` otherwise. */
  function LogLevel(debug: bool): (level: string)
  {
    if debug then "trace" else "error"
  }

  // The literal text of `ConfigTemplate` between its placeholders, one
  // string per source line (main.go:25-39).
  const Seg0 := "[common]" + "\n" + "server_addr = "
  const Seg1 := "\n" + "server_port = "
  const Seg2 := "\n" + "token = "
  const Seg3 := "\n" + "protocol = kcp" + "\n" + "log_level = "
  const Seg4 := "\n" + "pool_count = 2" + "\n" + "\n" + "[http-"
  const Seg5 := "]" + "\n" + "type = http" + "\n" + "local_ip = "
  const Seg6 := "\n" + "local_port = "
  const Seg7 := "\n" + "use_encryption = false" + "\n" + "use_compression = true" + "\n" + "subdomain = "

  /**
   * `ConfigTemplate`, character for character: its literal text and its
   * placeholders (the Go raw string has no trailing newline).
   */
  const ConfigTemplate :=
    Seg0 + Placeholder("server_addr") + Seg1 + Placeholder("server_port") +
    Seg2 + Placeholder("token") + Seg3 + Placeholder("log_level") +
    Seg4 + Placeholder("name") + Seg5 + Placeholder("local_ip") +
    Seg6 + Placeholder("local_port") + Seg7 + Placeholder("name")

  /**
   * `replaceValues`: the seven replacements, in the order the source performs
   * them; `Placeholder("server_addr")` is the literal `"%server_addr%"`.
   */
  function ReplaceValues(name: string, config: UserConfig): (text: string)
  {
    var t1 := ReplaceFirst(ConfigTemplate, Placeholder("server_addr"), config.serverAddr);
    var t2 := ReplaceFirst(t1, Placeholder("server_port"), Itoa(config.serverPort));
    var t3 := ReplaceFirst(t2, Placeholder("token"), config.token);
    var t4 := ReplaceAll(t3, Placeholder("name"), name);
    var t5 := ReplaceFirst(t4, Placeholder("local_ip"), config.localAddr);
    var t6 := ReplaceFirst(t5, Placeholder("local_port"), Itoa(config.localPort));
    ReplaceFirst(t6, Placeholder("log_level"), LogLevel(config.debug))
  }

  /** The template with every placeholder holding its value, both `%name%` sites the session name. */
  function Filled(name: string, config: UserConfig): (text: string)
  {
    Seg0 + config.serverAddr + Seg1 + Itoa(config.serverPort) +
    Seg2 + config.token + Seg3 + LogLevel(config.debug) +
    Seg4 + name + Seg5 + config.localAddr +
    Seg6 + Itoa(config.localPort) + Seg7 + name
  }

  /**
   * The configuration replaceValues is meant to produce, line by line: the
   * `[common]` section with the server fields and the log level, then the
   * `[http-<name>]` proxy section with the local fields and the subdomain.
   */
  function ConfigLines(name: string, config: UserConfig): (ls: seq<string>)
  {
    ["[common]",
     "server_addr = " + config.serverAddr,
     "server_port = " + Itoa(config.serverPort),
     "token = " + config.token,
     "protocol = kcp",
     "log_level = " + LogLevel(config.debug),
     "pool_count = 2",
     "",
     "[http-" + name + "]",
     "type = http",
     "local_ip = " + config.localAddr,
     "local_port = " + Itoa(config.localPort),
     "use_encryption = false",
     "use_compression = true",
     "subdomain = " + name]
  }

  /** The configuration text: its lines joined by newlines. */
  function Rendered(name: string, config: UserConfig): (text: string)
  {
    JoinLines(ConfigLines(name, config))
  }

  /** No inserted value carries a `%` (Itoa never does, see ItoaShape). */
  predicate PercentFree(name: string, config: UserConfig)
  {
    '%' !in name && '%' !in config.serverAddr && '%' !in config.token && '%' !in config.localAddr
  }

  /** No inserted value carries a newline, so none can add a line to the configuration. */
  predicate NewlineFree(name: string, config: UserConfig)
  {
    '\n' !in name && '\n' !in config.serverAddr && '\n' !in config.token && '\n' !in config.localAddr
  }

  // ---------------------------------------------------------------------
  // Replacement steps on placeholder-shaped text
  // ---------------------------------------------------------------------

  /** Another placeholder at the front cannot hold an occurrence of `%w%`. */
  lemma PlaceholderNoMatch(v: string, w: string, y: string)
    requires '%' !in v && '%' !in w && |w| > 0 && v != w
    requires |y| > 0 ==> y[0] != w[0]
    ensures NoMatchBefore(Placeholder(v), y, Placeholder(w))
  {
    var q, p := Placeholder(v), Placeholder(w);
    var s := q + y;
    forall j | 0 <= j < |q|
      ensures !OccursAt(s, p, j)
    {
      if j + |p| <= |s| {
        var seg := s[j..j + |p|];
        if j == 0 {
          if |v| < |w| {
            assert seg[|v| + 1] == '%' && p[|v| + 1] == w[|v|];
          } else if |w| < |v| {
            assert seg[|w| + 1] == v[|w|] && p[|w| + 1] == '%';
          } else {
            assert seg[1..|w| + 1] == v && p[1..|w| + 1] == w;
          }
        } else if j <= |v| {
          assert seg[0] == v[j - 1] && p[0] == '%';
        } else {
          assert seg[1] == y[0] && p[1] == w[0];
        }
      }
    }
  }

  lemma ReplaceFirstOther(v: string, w: string, y: string, rep: string)
    requires '%' !in v && '%' !in w && |w| > 0 && v != w
    requires |y| > 0 ==> y[0] != w[0]
    ensures ReplaceFirst(Placeholder(v) + y, Placeholder(w), rep) ==
      Placeholder(v) + ReplaceFirst(y, Placeholder(w), rep)
  {
    PlaceholderNoMatch(v, w, y);
    ReplaceFirstSkip(Placeholder(v), y, Placeholder(w), rep);
  }

  lemma ReplaceAllOther(v: string, w: string, y: string, rep: string)
    requires '%' !in v && '%' !in w && |w| > 0 && v != w
    requires |y| > 0 ==> y[0] != w[0]
    ensures ReplaceAll(Placeholder(v) + y, Placeholder(w), rep) ==
      Placeholder(v) + ReplaceAll(y, Placeholder(w), rep)
  {
    PlaceholderNoMatch(v, w, y);
    ReplaceAllSkip(Placeholder(v), y, Placeholder(w), rep);
  }

  /** Filling the placeholder that follows a `%`-free prefix. */
  lemma FillNext(done: string, w: string, v: string, y: string)
    requires '%' !in done
    ensures ReplaceFirst(done + (Placeholder(w) + y), Placeholder(w), v) == done + v + y
  {
    ReplaceFirstFree(done, Placeholder(w) + y, Placeholder(w), v);
    ReplaceFirstHead(Placeholder(w), y, v);
  }

  lemma SegmentsPercentFree()
    ensures '%' !in Seg0 && '%' !in Seg1 && '%' !in Seg2 && '%' !in Seg3
  {
  }

  lemma LaterSegmentsPercentFree()
    ensures '%' !in Seg4 && '%' !in Seg5 && '%' !in Seg6 && '%' !in Seg7
    ensures Seg4[0] == '\n' && Seg6[0] == '\n' && Seg7[0] == '\n'
  {
    LastSegmentPercentFree();
  }

  lemma LastSegmentPercentFree()
    ensures '%' !in Seg7 && Seg7[0] == '\n'
  {
  }

  // ---------------------------------------------------------------------
  // The chain of replacements, step by step
  // ---------------------------------------------------------------------

  /** What is left of the template once the first three placeholders are filled. */
  function Rest3(): (r: string)
  {
    Placeholder("log_level") + (Seg4 + (Placeholder("name") + (Seg5 + (Placeholder("local_ip") +
    (Seg6 + (Placeholder("local_port") + (Seg7 + Placeholder("name"))))))))
  }

  /** Rest3 once both `%name%` sites hold `name`. */
  function Rest4(name: string): (r: string)
  {
    Placeholder("log_level") + (Seg4 + (name + (Seg5 + (Placeholder("local_ip") +
    (Seg6 + (Placeholder("local_port") + (Seg7 + name)))))))
  }

  lemma Regroup(a: string, b: string, c: string, d: string, e: string, f: string, g: string, h: string,
                i: string, j: string, k: string, l: string, m: string, n: string, o: string, p: string)
    ensures a + b + c + d + e + f + g + h + i + j + k + l + m + n + o + p ==
      a + (b + (c + (d + (e + (f + (g + (h + (i + (j + (k + (l + (m + (n + (o + p))))))))))))))
  {
  }

  lemma ServerSegmentsText()
    ensures Seg0 == "[common]\nserver_addr = " && Seg1 == "\nserver_port = " && Seg2 == "\ntoken = "
    ensures Seg3 == "\nprotocol = kcp\nlog_level = "
  {
  }

  lemma ProxySegmentsText()
    ensures Seg4 == "\npool_count = 2\n\n[http-"
    ensures Seg5 == "]\ntype = http\nlocal_ip = " && Seg6 == "\nlocal_port = "
  {
  }

  lemma LastSegmentText()
    ensures Seg7 == "\nuse_encryption = false\nuse_compression = true\nsubdomain = "
  {
    var x1 := "\n" + "use_encryption = false";
    assert x1 == "\nuse_encryption = false";
    var x2 := x1 + "\n";
    assert x2 == "\nuse_encryption = false\n";
    var x3 := x2 + "use_compression = true";
    assert x3 == "\nuse_encryption = false\nuse_compression = true";
    var x4 := x3 + "\n";
    assert x4 == "\nuse_encryption = false\nuse_compression = true\n";
    var x5 := x4 + "subdomain = ";
    assert x5 == "\nuse_encryption = false\nuse_compression = true\nsubdomain = ";
  }

  /**
   * The text of `ConfigTemplate` between its placeholders, line for line the
   * Go raw string: `%name%` follows `[http-` and `subdomain = `, and no `%`
   * stands outside a placeholder.
   */
  lemma TemplateText()
    ensures Seg0 == "[common]\nserver_addr = " && Seg1 == "\nserver_port = " && Seg2 == "\ntoken = "
    ensures Seg3 == "\nprotocol = kcp\nlog_level = " && Seg4 == "\npool_count = 2\n\n[http-"
    ensures Seg5 == "]\ntype = http\nlocal_ip = " && Seg6 == "\nlocal_port = "
    ensures Seg7 == "\nuse_encryption = false\nuse_compression = true\nsubdomain = "
    ensures '%' !in Seg0 && '%' !in Seg1 && '%' !in Seg2 && '%' !in Seg3
    ensures '%' !in Seg4 && '%' !in Seg5 && '%' !in Seg6 && '%' !in Seg7
  {
    ServerSegmentsText();
    ProxySegmentsText();
    LastSegmentText();
    SegmentsPercentFree();
    LaterSegmentsPercentFree();
  }

  lemma TemplateShape()
    ensures ConfigTemplate ==
      Seg0 + (Placeholder("server_addr") + (Seg1 + (Placeholder("server_port") +
      (Seg2 + (Placeholder("token") + (Seg3 + Rest3()))))))
  {
    Regroup(Seg0, Placeholder("server_addr"), Seg1, Placeholder("server_port"),
      Seg2, Placeholder("token"), Seg3, Placeholder("log_level"),
      Seg4, Placeholder("name"), Seg5, Placeholder("local_ip"),
      Seg6, Placeholder("local_port"), Seg7, Placeholder("name"));
  }

  /** The first three `strings.Replace(..., 1)` calls on any `%`-free segments: the three server fields, each filled once. */
  lemma FillServerFields(s0: string, s1: string, s2: string, s3: string, rest: string,
                         addr: string, port: string, token: string)
    requires '%' !in s0 && '%' !in s1 && '%' !in s2 && '%' !in s3
    requires '%' !in addr && '%' !in port && '%' !in token
    ensures ReplaceFirst(ReplaceFirst(ReplaceFirst(
      s0 + (Placeholder("server_addr") + (s1 + (Placeholder("server_port") +
      (s2 + (Placeholder("token") + (s3 + rest)))))),
      Placeholder("server_addr"), addr), Placeholder("server_port"), port), Placeholder("token"), token) ==
      s0 + addr + s1 + port + s2 + token + s3 + rest
  {
    var r2 := s2 + (Placeholder("token") + (s3 + rest));
    FillNext(s0, "server_addr", addr, s1 + (Placeholder("server_port") + r2));
    assert s0 + addr + (s1 + (Placeholder("server_port") + r2)) ==
      (s0 + addr + s1) + (Placeholder("server_port") + r2);
    FillNext(s0 + addr + s1, "server_port", port, r2);
    assert s0 + addr + s1 + port + r2 ==
      (s0 + addr + s1 + port + s2) + (Placeholder("token") + (s3 + rest));
    FillNext(s0 + addr + s1 + port + s2, "token", token, s3 + rest);
  }

  lemma FillServerLines(addr: string, port: string, token: string)
    requires '%' !in addr && '%' !in port && '%' !in token
    ensures ReplaceFirst(ReplaceFirst(ReplaceFirst(ConfigTemplate, Placeholder("server_addr"), addr),
      Placeholder("server_port"), port), Placeholder("token"), token) ==
      Seg0 + addr + Seg1 + port + Seg2 + token + Seg3 + Rest3()
  {
    SegmentsPercentFree();
    TemplateShape();
    FillServerFields(Seg0, Seg1, Seg2, Seg3, Rest3(), addr, port, token);
  }
  /** `strings.Replace(template, "%name%", name, -1)`: every `%name%` is replaced, the other placeholders are passed over. */
  lemma FillName(done: string, name: string)
    requires '%' !in done && '%' !in name
    ensures ReplaceAll(done + Rest3(), Placeholder("name"), name) == done + Rest4(name)
  {
    LaterSegmentsPercentFree();
    var n := Placeholder("name");
    var tail := Seg7 + n;
    ReplaceAllFree(Seg7, n, n, name);
    ReplaceAllHead(n, [], name);
    assert n + [] == n;
    ReplaceAllEmpty(n, name);
    assert ReplaceAll(tail, n, name) == Seg7 + name;
    var t6 := Placeholder("local_port") + tail;
    ReplaceAllOther("local_port", "name", tail, name);
    var t5 := Seg6 + t6;
    ReplaceAllFree(Seg6, t6, n, name);
    var t4 := Placeholder("local_ip") + t5;
    ReplaceAllOther("local_ip", "name", t5, name);
    var t3 := Seg5 + t4;
    ReplaceAllFree(Seg5, t4, n, name);
    var t2 := n + t3;
    ReplaceAllHead(n, t3, name);
    var t1 := Seg4 + t2;
    ReplaceAllFree(Seg4, t2, n, name);
    ReplaceAllOther("log_level", "name", t1, name);
    ReplaceAllFree(done, Rest3(), n, name);
  }

  /** The `%local_ip%` replacement: its placeholder is reached past the prefix and `%log_level%`. */
  lemma FillLocalIp(done: string, s4: string, s5: string, r5: string, name: string, addr: string)
    requires '%' !in done && '%' !in s4 && '%' !in s5 && '%' !in name
    requires |s4| > 0 && s4[0] == '\n'
    ensures ReplaceFirst(done + (Placeholder("log_level") + (s4 + (name + (s5 + (Placeholder("local_ip") + r5))))),
      Placeholder("local_ip"), addr) ==
      done + (Placeholder("log_level") + (s4 + name + s5 + addr + r5))
  {
    var y4 := s4 + (name + (s5 + (Placeholder("local_ip") + r5)));
    ReplaceFirstFree(done, Placeholder("log_level") + y4, Placeholder("local_ip"), addr);
    ReplaceFirstOther("log_level", "local_ip", y4, addr);
    assert y4 == (s4 + name + s5) + (Placeholder("local_ip") + r5);
    FillNext(s4 + name + s5, "local_ip", addr, r5);
  }

  /** The `%local_port%` replacement: its placeholder is reached past the prefix, `%log_level%` and the filled local address. */
  lemma FillLocalPort(done: string, m: string, s6: string, r6: string, port: string)
    requires '%' !in done && '%' !in m && '%' !in s6
    requires |m| > 0 && m[0] == '\n'
    ensures ReplaceFirst(done + (Placeholder("log_level") + (m + (s6 + (Placeholder("local_port") + r6)))),
      Placeholder("local_port"), port) ==
      done + (Placeholder("log_level") + (m + s6 + port + r6))
  {
    var y5 := m + (s6 + (Placeholder("local_port") + r6));
    assert y5[0] == m[0];
    ReplaceFirstFree(done, Placeholder("log_level") + y5, Placeholder("local_port"), port);
    ReplaceFirstOther("log_level", "local_port", y5, port);
    assert y5 == (m + s6) + (Placeholder("local_port") + r6);
    FillNext(m + s6, "local_port", port, r6);
  }

  /** The `%local_ip%`, `%local_port%` and `%log_level%` replacements on any `%`-free segments, in that order. */
  lemma FillLocalFields(done: string, s4: string, s5: string, s6: string, s7: string,
                        name: string, addr: string, port: string, level: string)
    requires '%' !in done && '%' !in s4 && '%' !in s5 && '%' !in s6 && '%' !in s7
    requires '%' !in name && '%' !in addr && '%' !in port && '%' !in level
    requires |s4| > 0 && s4[0] == '\n'
    ensures ReplaceFirst(ReplaceFirst(ReplaceFirst(
      done + (Placeholder("log_level") + (s4 + (name + (s5 + (Placeholder("local_ip") +
      (s6 + (Placeholder("local_port") + (s7 + name)))))))),
      Placeholder("local_ip"), addr), Placeholder("local_port"), port), Placeholder("log_level"), level) ==
      done + level + s4 + name + s5 + addr + s6 + port + s7 + name
  {
    var r5 := s6 + (Placeholder("local_port") + (s7 + name));
    FillLocalIp(done, s4, s5, r5, name, addr);
    var m := s4 + name + s5 + addr;
    assert m + r5 == m + (s6 + (Placeholder("local_port") + (s7 + name)));
    assert m[0] == s4[0];
    FillLocalPort(done, m, s6, s7 + name, port);
    var y := Placeholder("log_level") + (s4 + (name + (s5 + (Placeholder("local_ip") + r5))));
    var y1 := ReplaceFirst(done + y, Placeholder("local_ip"), addr);
    assert y1 == done + (Placeholder("log_level") + (m + (s6 + (Placeholder("local_port") + (s7 + name)))));
    var tail := m + s6 + port + (s7 + name);
    assert ReplaceFirst(y1, Placeholder("local_port"), port) == done + (Placeholder("log_level") + tail);
    FillNext(done, "log_level", level, tail);
    Flatten(done, level, s4, name, s5, addr, s6, port, s7);
  }

  /** Re-association of the filled text into the flat shape of `Filled`. */
  lemma Flatten(a: string, b: string, c: string, d: string, e: string, f: string, g: string, h: string, i: string)
    ensures a + b + (c + d + e + f + g + h + (i + d)) == a + b + c + d + e + f + g + h + i + d
  {
  }

  lemma FillLocalLines(done: string, name: string, addr: string, port: string, level: string)
    requires '%' !in done && '%' !in name && '%' !in addr && '%' !in port && '%' !in level
    ensures ReplaceFirst(ReplaceFirst(ReplaceFirst(done + Rest4(name),
      Placeholder("local_ip"), addr), Placeholder("local_port"), port), Placeholder("log_level"), level) ==
      done + level + Seg4 + name + Seg5 + addr + Seg6 + port + Seg7 + name
  {
    LaterSegmentsPercentFree();
    FillLocalFields(done, Seg4, Seg5, Seg6, Seg7, name, addr, port, level);
  }

  // ---------------------------------------------------------------------
  // What replaceValues produces
  // ---------------------------------------------------------------------

  /**
   * When no inserted value contains `%`, replaceValues produces the intended
   * text: each field in its own line, the session name in both `%name%` sites.
   */
  lemma ReplaceValuesFilled(name: string, config: UserConfig)
    requires PercentFree(name, config)
    ensures ReplaceValues(name, config) == Filled(name, config)
  {
    var port, lport := Itoa(config.serverPort), Itoa(config.localPort);
    ItoaShape(config.serverPort);
    ItoaShape(config.localPort);
    var level := LogLevel(config.debug);
    assert '%' !in level;
    FillServerLines(config.serverAddr, port, config.token);
    var done := Seg0 + config.serverAddr + Seg1 + port + Seg2 + config.token + Seg3;
    SegmentsPercentFree();
    FillName(done, name);
    FillLocalLines(done, name, config.localAddr, lport, level);
  }

  /** `replaceValues` never emits a `%` when no inserted value holds one: no placeholder is left. */
  lemma NoPlaceholderLeft(name: string, config: UserConfig)
    requires PercentFree(name, config)
    ensures '%' !in ReplaceValues(name, config)
  {
    ReplaceValuesFilled(name, config);
    SegmentsPercentFree();
    LaterSegmentsPercentFree();
    ItoaShape(config.serverPort);
    ItoaShape(config.localPort);
    assert '%' !in LogLevel(config.debug);
  }

  /** Fifteen lines joined, written out. */
  lemma JoinFifteen(ls: seq<string>)
    requires |ls| == 15
    ensures JoinLines(ls) ==
      ls[0] + "\n" + (ls[1] + "\n" + (ls[2] + "\n" + (ls[3] + "\n" + (ls[4] + "\n" +
      (ls[5] + "\n" + (ls[6] + "\n" + (ls[7] + "\n" + (ls[8] + "\n" + (ls[9] + "\n" +
      (ls[10] + "\n" + (ls[11] + "\n" + (ls[12] + "\n" + (ls[13] + "\n" + ls[14])))))))))))))
  {
    assert ls[14..] == [ls[14]];
    JoinStep(ls, 13); JoinStep(ls, 12); JoinStep(ls, 11); JoinStep(ls, 10); JoinStep(ls, 9);
    JoinStep(ls, 8); JoinStep(ls, 7); JoinStep(ls, 6); JoinStep(ls, 5); JoinStep(ls, 4);
    JoinStep(ls, 3); JoinStep(ls, 2); JoinStep(ls, 1); JoinStep(ls, 0);
    assert ls[0..] == ls;
  }

  /**
   * The template's segments, cut at their newlines, line up with the lines:
   * re-association over symbolic pieces (`nl` stands for the newline).
   */
  lemma AlignLines(c: string, ka: string, a: string, kp: string, p: string, kt: string, t: string,
                   pr: string, kl: string, l: string, pc: string, hs: string, n: string, he: string,
                   ty: string, ki: string, i: string, klp: string, lp: string,
                   ue: string, uc: string, ks: string, nl: string)
    ensures (c + nl + ka) + a + (nl + kp) + p + (nl + kt) + t + (nl + pr + nl + kl) + l +
      (nl + pc + nl + nl + hs) + n + (he + nl + ty + nl + ki) + i + (nl + klp) + lp +
      (nl + ue + nl + uc + nl + ks) + n ==
      c + nl + (ka + a + nl + (kp + p + nl + (kt + t + nl + (pr + nl + (kl + l + nl +
      (pc + nl + ([] + nl + (hs + n + he + nl + (ty + nl + (ki + i + nl +
      (klp + lp + nl + (ue + nl + (uc + nl + (ks + n))))))))))))))
  {
    // The right-nested chain of all pieces, built from its end.
    var k := ks + n;
    var kUc := uc + (nl + k);
    var kUe := ue + (nl + kUc);
    var kLp := klp + (lp + (nl + kUe));
    var kI := ki + (i + (nl + kLp));
    var kTy := ty + (nl + kI);
    var kH := hs + (n + (he + (nl + kTy)));
    var kE := nl + kH;
    var kPc := pc + (nl + kE);
    var kL := kl + (l + (nl + kPc));
    var kPr := pr + (nl + kL);
    var kT := kt + (t + (nl + kPr));
    var kP := kp + (p + (nl + kT));
    var kA := ka + (a + (nl + kP));
    var all := c + (nl + kA);
    // The lines side, line by line from the last one.
    Assoc2(uc, nl, k);
    Assoc2(ue, nl, kUc);
    Assoc3(klp, lp, nl, kUe);
    Assoc3(ki, i, nl, kLp);
    Assoc2(ty, nl, kI);
    Assoc4(hs, n, he, nl, kTy);
    Assoc2([], nl, kH);
    assert [] + (nl + kH) == kE;
    Assoc2(pc, nl, kE);
    Assoc3(kl, l, nl, kPc);
    Assoc2(pr, nl, kL);
    Assoc3(kt, t, nl, kPr);
    Assoc3(kp, p, nl, kT);
    Assoc3(ka, a, nl, kP);
    Assoc2(c, nl, kA);
    // The template side, segment by segment from the last one.
    Regroup(c + nl + ka, a, nl + kp, p, nl + kt, t, nl + pr + nl + kl, l,
      nl + pc + nl + nl + hs, n, he + nl + ty + nl + ki, i, nl + klp, lp, nl + ue + nl + uc + nl + ks, n);
    Assoc6(nl, ue, nl, uc, nl, ks, n);
    Assoc2(nl, klp, lp + (nl + kUe));
    Assoc5(he, nl, ty, nl, ki, i + (nl + kLp));
    Assoc5(nl, pc, nl, nl, hs, n + (he + (nl + kTy)));
    Assoc4(nl, pr, nl, kl, l + (nl + kPc));
    Assoc2(nl, kt, t + (nl + kPr));
    Assoc2(nl, kp, p + (nl + kT));
    Assoc3(c, nl, ka, a + (nl + kP));
  }

  lemma Flatten5(x: string, a: string, b: string, c: string, d: string, e: string)
    ensures x + (a + b + c + d + e) == x + a + b + c + d + e
  {
  }

  lemma Assoc2(x1: string, x2: string, w: string)
    ensures x1 + x2 + w == x1 + (x2 + w)
  {
  }

  lemma Assoc3(x1: string, x2: string, x3: string, w: string)
    ensures x1 + x2 + x3 + w == x1 + (x2 + (x3 + w))
  {
  }

  lemma Assoc4(x1: string, x2: string, x3: string, x4: string, w: string)
    ensures x1 + x2 + x3 + x4 + w == x1 + (x2 + (x3 + (x4 + w)))
  {
  }

  lemma Assoc5(x1: string, x2: string, x3: string, x4: string, x5: string, w: string)
    ensures x1 + x2 + x3 + x4 + x5 + w == x1 + (x2 + (x3 + (x4 + (x5 + w))))
  {
  }

  lemma Assoc6(x1: string, x2: string, x3: string, x4: string, x5: string, x6: string, w: string)
    ensures x1 + x2 + x3 + x4 + x5 + x6 + w == x1 + (x2 + (x3 + (x4 + (x5 + (x6 + w)))))
  {
  }

  /** The filled template is the intended configuration, line for line. */
  lemma FilledIsRendered(name: string, config: UserConfig)
    ensures Filled(name, config) == Rendered(name, config)
  {
    var L := ConfigLines(name, config);
    JoinFifteen(L);
    AlignLines("[common]", "server_addr = ", config.serverAddr, "server_port = ", Itoa(config.serverPort),
      "token = ", config.token, "protocol = kcp", "log_level = ", LogLevel(config.debug),
      "pool_count = 2", "[http-", name, "]", "type = http", "local_ip = ", config.localAddr,
      "local_port = ", Itoa(config.localPort), "use_encryption = false", "use_compression = true",
      "subdomain = ", "\n");
  }

  /**
   * When no inserted value contains `%`, replaceValues produces the intended
   * configuration: every placeholder holds its field's value, the session
   * name fills both `%name%` sites.
   */
  lemma ReplaceValuesRendered(name: string, config: UserConfig)
    requires PercentFree(name, config)
    ensures ReplaceValues(name, config) == Rendered(name, config)
  {
    ReplaceValuesFilled(name, config);
    FilledIsRendered(name, config);
  }

  lemma FixedLinesSingle()
    ensures NoNewline("[common]") && NoNewline("protocol = kcp") && NoNewline("pool_count = 2")
    ensures NoNewline("type = http") && NoNewline("use_encryption = false") && NoNewline("use_compression = true")
  {
  }

  lemma KeysSingle()
    ensures NoNewline("server_addr = ") && NoNewline("server_port = ") && NoNewline("token = ")
    ensures NoNewline("log_level = ") && NoNewline("[http-") && NoNewline("]")
    ensures NoNewline("local_ip = ") && NoNewline("local_port = ") && NoNewline("subdomain = ")
  {
  }

  /** Each intended line is a single line. */
  lemma ConfigLinesSingle(name: string, config: UserConfig)
    requires NewlineFree(name, config)
    ensures forall k :: 0 <= k < 15 ==> NoNewline(ConfigLines(name, config)[k])
  {
    ItoaShape(config.serverPort);
    ItoaShape(config.localPort);
    FixedLinesSingle();
    KeysSingle();
    var L := ConfigLines(name, config);
    assert NoNewline(LogLevel(config.debug));
    assert NoNewline(L[0]) && NoNewline(L[1]) && NoNewline(L[2]) && NoNewline(L[3]) && NoNewline(L[4]);
    assert NoNewline(L[5]) && NoNewline(L[6]) && NoNewline(L[7]) && NoNewline(L[8]) && NoNewline(L[9]);
    assert NoNewline(L[10]) && NoNewline(L[11]) && NoNewline(L[12]) && NoNewline(L[13]) && NoNewline(L[14]);
  }

  /**
   * Read back line by line, the output is exactly the intended lines: each
   * key once, with its own value, when no value contains `%` or a newline.
   */
  lemma ReplaceValuesLines(name: string, config: UserConfig)
    requires PercentFree(name, config) && NewlineFree(name, config)
    ensures SplitLines(ReplaceValues(name, config)) == ConfigLines(name, config)
  {
    ReplaceValuesRendered(name, config);
    ConfigLinesSingle(name, config);
    SplitJoin(ConfigLines(name, config));
  }

  /** The same key followed by different values gives different lines. */
  lemma KeyValueCancel(key: string, v: string, w: string)
    ensures key + v == key + w <==> v == w
  {
    if key + v == key + w {
      assert (key + v)[|key|..] == v;
      assert (key + w)[|key|..] == w;
    }
  }

  /** The intended log level line names `trace` exactly with `--debug`, `error` otherwise. */
  lemma LevelLine(name: string, config: UserConfig)
    ensures var l := ConfigLines(name, config)[5];
      (l == "log_level = " + "trace" <==> config.debug) && (l == "log_level = " + "error" <==> !config.debug)
  {
    KeyValueCancel("log_level = ", LogLevel(config.debug), "trace");
    KeyValueCancel("log_level = ", LogLevel(config.debug), "error");
    assert "trace"[0] != "error"[0];
  }

  /** The log level line of the output says `trace` exactly when `--debug` was given, `error` otherwise. */
  lemma LogLevelLine(name: string, config: UserConfig)
    requires PercentFree(name, config) && NewlineFree(name, config)
    ensures var ls := SplitLines(ReplaceValues(name, config));
      |ls| == 15 && (ls[5] == "log_level = " + "trace" <==> config.debug) &&
      (ls[5] == "log_level = " + "error" <==> !config.debug)
  {
    ReplaceValuesLines(name, config);
    LevelLine(name, config);
  }

  lemma PortDigits()
    ensures Itoa(8080) == "8080"
  {
    assert NatToDecimal(8) == "8";
    assert NatToDecimal(80) == "80";
    assert NatToDecimal(808) == "808";
  }

  /** The intended lines for server `s.example.com` and local port 8080. */
  lemma ExampleConfigLines(name: string, config: UserConfig)
    requires config.serverAddr == "s.example.com" && config.localPort == 8080
    ensures var ls := ConfigLines(name, config);
      ls[1] == "server_addr = " + "s.example.com" && ls[11] == "local_port = " + "8080"
  {
    PortDigits();
  }

  /** With server `s.example.com` and local port 8080, those two lines of the output read as expected. */
  lemma ExampleLines(name: string, config: UserConfig)
    requires config.serverAddr == "s.example.com" && config.localPort == 8080
    requires PercentFree(name, config) && NewlineFree(name, config)
    ensures var ls := SplitLines(ReplaceValues(name, config));
      |ls| == 15 && ls[1] == "server_addr = " + "s.example.com" && ls[11] == "local_port = " + "8080"
  {
    ReplaceValuesLines(name, config);
    ExampleConfigLines(name, config);
  }

  /**
   * The replacements run in sequence: a server address that is itself the
   * `%name%` placeholder is rewritten by the later `%name%` step, so the
   * output is the configuration for a server address equal to the name.
   */
  lemma AddressPlaceholderRewritten(name: string, config: UserConfig)
    requires config.serverAddr == Placeholder("name")
    requires PercentFree(name, config.(serverAddr := name))
    ensures ReplaceValues(name, config) == Rendered(name, config.(serverAddr := name))
  {
    var port, lport := Itoa(config.serverPort), Itoa(config.localPort);
    ItoaShape(config.serverPort);
    ItoaShape(config.localPort);
    var level := LogLevel(config.debug);
    assert '%' !in level;
    SegmentsPercentFree();
    ServerFieldsAroundName(port, config.token);
    var done := Seg1 + port + Seg2 + config.token + Seg3;
    NameAfterAddress(Seg0, done, name);
    var done' := Seg0 + name + Seg1 + port + Seg2 + config.token + Seg3;
    Flatten5(Seg0 + name, Seg1, port, Seg2, config.token, Seg3);
    FillLocalLines(done', name, config.localAddr, lport, level);
    FilledIsRendered(name, config.(serverAddr := name));
  }

  /** The `%name%` replacement after an inserted `%name%`: it is replaced along with the template's two. */
  lemma NameAfterAddress(s0: string, done: string, name: string)
    requires '%' !in s0 && '%' !in done && '%' !in name
    ensures ReplaceAll(s0 + (Placeholder("name") + (done + Rest3())), Placeholder("name"), name) ==
      s0 + name + done + Rest4(name)
  {
    var n := Placeholder("name");
    var x := done + Rest3();
    ReplaceAllFree(s0, n + x, n, name);
    ReplaceAllHead(n, x, name);
    FillName(done, name);
    Assoc3(s0, name, done, Rest4(name));
  }

  /** The three server-field replacements when the address inserted first is `%name%`: the later steps pass over it. */
  lemma ServerFieldsAroundName(port: string, token: string)
    requires '%' !in port && '%' !in token
    ensures ReplaceFirst(ReplaceFirst(ReplaceFirst(ConfigTemplate, Placeholder("server_addr"), Placeholder("name")),
      Placeholder("server_port"), port), Placeholder("token"), token) ==
      Seg0 + (Placeholder("name") + (Seg1 + port + Seg2 + token + Seg3 + Rest3()))
  {
    SegmentsPercentFree();
    TemplateShape();
    AroundName(Seg0, Seg1, Seg2, Seg3, Rest3(), port, token);
  }

  /** ServerFieldsAroundName on any `%`-free segments, the second opening a new line. */
  lemma AroundName(s0: string, s1: string, s2: string, s3: string, rest: string, port: string, token: string)
    requires '%' !in s0 && '%' !in s1 && '%' !in s2 && '%' !in s3
    requires '%' !in port && '%' !in token && |s1| > 0 && s1[0] == '\n'
    ensures ReplaceFirst(ReplaceFirst(ReplaceFirst(
      s0 + (Placeholder("server_addr") + (s1 + (Placeholder("server_port") +
      (s2 + (Placeholder("token") + (s3 + rest)))))),
      Placeholder("server_addr"), Placeholder("name")), Placeholder("server_port"), port), Placeholder("token"), token) ==
      s0 + (Placeholder("name") + (s1 + port + s2 + token + s3 + rest))
  {
    var n := Placeholder("name");
    var r2 := s2 + (Placeholder("token") + (s3 + rest));
    var r1 := s1 + (Placeholder("server_port") + r2);
    FillNext(s0, "server_addr", n, r1);
    var t1 := ReplaceFirst(s0 + (Placeholder("server_addr") + r1), Placeholder("server_addr"), n);
    assert t1 == s0 + (n + r1);
    PortAroundName(s0, s1, r2, port);
    var q := s1 + port + r2;
    var t2 := ReplaceFirst(t1, Placeholder("server_port"), port);
    assert t2 == s0 + (n + q);
    assert q == (s1 + port + s2) + (Placeholder("token") + (s3 + rest));
    assert q[0] == s1[0];
    TokenAroundName(s0, q, s1 + port + s2, s3 + rest, token);
    assert ReplaceFirst(t2, Placeholder("token"), token) == s0 + (n + (s1 + port + s2 + token + (s3 + rest)));
    Assoc2(s1 + port + s2 + token, s3, rest);
  }

  lemma PortAroundName(s0: string, s1: string, r2: string, port: string)
    requires '%' !in s0 && '%' !in s1 && |s1| > 0 && s1[0] == '\n'
    ensures ReplaceFirst(s0 + (Placeholder("name") + (s1 + (Placeholder("server_port") + r2))),
      Placeholder("server_port"), port) == s0 + (Placeholder("name") + (s1 + port + r2))
  {
    var r1 := s1 + (Placeholder("server_port") + r2);
    ReplaceFirstFree(s0, Placeholder("name") + r1, Placeholder("server_port"), port);
    assert r1[0] == s1[0];
    ReplaceFirstOther("name", "server_port", r1, port);
    FillNext(s1, "server_port", port, r2);
  }

  lemma TokenAroundName(s0: string, q: string, before: string, after: string, token: string)
    requires '%' !in s0 && '%' !in before && |q| > 0 && q[0] == '\n'
    requires q == before + (Placeholder("token") + after)
    ensures ReplaceFirst(s0 + (Placeholder("name") + q), Placeholder("token"), token) ==
      s0 + (Placeholder("name") + (before + token + after))
  {
    ReplaceFirstFree(s0, Placeholder("name") + q, Placeholder("token"), token);
    ReplaceFirstOther("name", "token", q, token);
    FillNext(before, "token", token, after);
  }
}

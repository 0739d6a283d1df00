/**
 * The rule engine. A service holds the configured threshold, the two
 * comma-separated lists and the location-check flag; `Init` parses the
 * lists once, and `DetectFraud` applies three independent rules in the
 * fixed order amount, account, location, each adding one reason when it
 * fires. `Evaluate` is the specification of a verdict.
 */
module FraudDetection {
  import opened Wrappers
  import opened JavaText
  import opened Model

  /** The parsed rule configuration a service evaluates against. */
  datatype RuleConfig = RuleConfig(
    amountThreshold: real,
    suspiciousAccounts: seq<string>,
    highRiskLocations: seq<string>,
    enableUnusualLocationCheck: bool)

  // ---------------------------------------------------------------------
  // Configuration lists

  /** A configured list: `s.split(",")` with every piece trimmed. */
  function ParseList(s: string): seq<string> {
    var pieces := JavaSplit(s);
    seq(|pieces|, i requires 0 <= i < |pieces| => Trim(pieces[i]))
  }

  /** Trimming a piece that has no comma leaves a piece with no comma. */
  lemma TrimKeepsNoComma(p: string)
    requires ',' !in p
    ensures ',' !in Trim(p)
  {
    TrimSpec(p);
  }

  /** Every parsed entry is trimmed and holds no comma. */
  lemma ParseListEntries(s: string)
    ensures forall k :: 0 <= k < |ParseList(s)| ==>
      IsTrimmed(ParseList(s)[k]) && ',' !in ParseList(s)[k]
  {
    var pieces := JavaSplit(s);
    forall k | 0 <= k < |pieces|
      ensures IsTrimmed(Trim(pieces[k])) && ',' !in Trim(pieces[k])
    {
      TrimSpec(pieces[k]);
      if ',' in s {
        var all := SplitAll(s);
        assert pieces[k] == all[k];
      }
      TrimKeepsNoComma(pieces[k]);
    }
  }

  /** A list of comma-free, trimmed, non-empty entries, each preceded by
      some spaces and joined by commas, parses back to those entries. */
  lemma ParseJoined(entries: seq<string>, pad: seq<string>)
    requires |entries| >= 1 && |pad| == |entries|
    requires forall k :: 0 <= k < |entries| ==> entries[k] != "" && IsTrimmed(entries[k]) && ',' !in entries[k]
    requires forall k :: 0 <= k < |pad| ==> forall i :: 0 <= i < |pad[k]| ==> pad[k][i] == ' '
    ensures ParseList(Join(Padded(pad, entries))) == entries
  {
    var ps := Padded(pad, entries);
    forall k | 0 <= k < |ps|
      ensures ',' !in ps[k] && Trim(ps[k]) == entries[k]
    {
      PaddedTrim(pad[k], entries[k]);
    }
    JavaSplitJoin(ps);
  }

  /** Each entry preceded by its padding. */
  function Padded(pad: seq<string>, entries: seq<string>): (ps: seq<string>)
    requires |pad| == |entries|
    ensures |ps| == |entries|
  {
    seq(|entries|, k requires 0 <= k < |entries| => pad[k] + entries[k])
  }

  /** Java's split gives back comma-free pieces whose last one is not empty. */
  lemma JavaSplitJoin(ps: seq<string>)
    requires |ps| >= 1 && ps[|ps| - 1] != ""
    requires forall k :: 0 <= k < |ps| ==> ',' !in ps[k]
    ensures JavaSplit(Join(ps)) == ps
  {
    SplitAllJoin(ps);
    if |ps| > 1 {
      JoinHasComma(ps);
    }
  }

  lemma JoinHasComma(ps: seq<string>)
    requires |ps| > 1
    ensures ',' in Join(ps)
  {
    assert Join(ps)[|ps[0]|] == ',';
  }

  /** Leading spaces before a trimmed, non-empty entry are trimmed away. */
  lemma PaddedTrim(pad: string, e: string)
    requires forall i :: 0 <= i < |pad| ==> pad[i] == ' '
    requires e != [] && IsTrimmed(e) && ',' !in e
    ensures ',' !in pad + e && Trim(pad + e) == e
  {
    var p := pad + e;
    TrimStartSpec(p);
    var t := TrimStart(p);
    var lo := |p| - |t|;
    assert p[|pad|] == e[0] && e[0] > ' ';
    assert lo <= |pad|;
    assert t != [] && t[0] == p[lo];
    assert lo == |pad|;
    assert t == p[|pad|..] == e;
    TrimOfTrimmed(e);
  }

  // ---------------------------------------------------------------------
  // The three rules

  /** Rule 1: the amount is strictly above the threshold. */
  predicate AmountRuleFires(cfg: RuleConfig, tx: Transaction) {
    tx.amount > cfg.amountThreshold
  }

  /** Rule 2: the account id is, exactly, one of the configured accounts
      (a null id is in no list). */
  predicate AccountRuleFires(cfg: RuleConfig, tx: Transaction) {
    tx.accountId.Some? && tx.accountId.value in cfg.suspiciousAccounts
  }

  /** A non-null, non-blank location that contains some configured entry. */
  predicate IsHighRiskLocation(highRiskLocations: seq<string>, location: JString) {
    location.Some? && !IsBlank(location.value)
    && exists k :: 0 <= k < |highRiskLocations| && Contains(location.value, highRiskLocations[k])
  }

  /** Rule 3: switched on by the flag, then IsHighRiskLocation. */
  predicate LocationRuleFires(cfg: RuleConfig, tx: Transaction) {
    cfg.enableUnusualLocationCheck && IsHighRiskLocation(cfg.highRiskLocations, tx.location)
  }

  /** The reasons in rule order. */
  function Rank(r: Reason): nat {
    match r
    case AmountReason(_, _) => 0
    case AccountReason(_) => 1
    case LocationReason(_) => 2
  }

  /** The verdict the service gives: one reason per fired rule, in rule
      order, fraudulent when any rule fired. */
  function Evaluate(cfg: RuleConfig, tx: Transaction, detectTime: string): (r: FraudResult)
    ensures r.transactionId == tx.transactionId && r.detectTime == detectTime
    ensures r.isFraudulent <==> |r.reasons| > 0
    ensures |r.reasons| <= 3
    ensures forall i, j :: 0 <= i < j < |r.reasons| ==> Rank(r.reasons[i]) < Rank(r.reasons[j])
  {
    var amount := if AmountRuleFires(cfg, tx) then [AmountReason(tx.amount, cfg.amountThreshold)] else [];
    var account := if AccountRuleFires(cfg, tx) then [AccountReason(tx.accountId.value)] else [];
    var location := if LocationRuleFires(cfg, tx) then [LocationReason(tx.location.value)] else [];
    FraudResult(
      tx.transactionId,
      AmountRuleFires(cfg, tx) || AccountRuleFires(cfg, tx) || LocationRuleFires(cfg, tx),
      amount + account + location,
      detectTime)
  }

  /** The number of reasons is the number of rules that fired. */
  lemma ReasonCount(cfg: RuleConfig, tx: Transaction, detectTime: string)
    ensures |Evaluate(cfg, tx, detectTime).reasons| ==
      (if AmountRuleFires(cfg, tx) then 1 else 0)
      + (if AccountRuleFires(cfg, tx) then 1 else 0)
      + (if LocationRuleFires(cfg, tx) then 1 else 0)
  {
  }

  predicate HasAmountReason(rs: seq<Reason>) {
    exists i :: 0 <= i < |rs| && rs[i].AmountReason?
  }

  predicate HasAccountReason(rs: seq<Reason>) {
    exists i :: 0 <= i < |rs| && rs[i].AccountReason?
  }

  predicate HasLocationReason(rs: seq<Reason>) {
    exists i :: 0 <= i < |rs| && rs[i].LocationReason?
  }

  /** The amount reason is present iff amount > threshold (an amount equal
      to the threshold does not fire), and it carries both numbers. The
      other two rules play no part. */
  lemma AmountRuleIff(cfg: RuleConfig, tx: Transaction, detectTime: string)
    ensures var rs := Evaluate(cfg, tx, detectTime).reasons;
      (HasAmountReason(rs) <==> tx.amount > cfg.amountThreshold)
      && forall i :: 0 <= i < |rs| && rs[i].AmountReason? ==>
           rs[i] == AmountReason(tx.amount, cfg.amountThreshold)
  {
    var rs := Evaluate(cfg, tx, detectTime).reasons;
    if tx.amount > cfg.amountThreshold {
      assert rs[0].AmountReason?;
    }
  }

  /** The account reason is present iff the id is non-null and an exact
      element of the parsed list, and it carries that id. */
  lemma AccountRuleIff(cfg: RuleConfig, tx: Transaction, detectTime: string)
    ensures var rs := Evaluate(cfg, tx, detectTime).reasons;
      (HasAccountReason(rs) <==>
        tx.accountId.Some? && exists k :: 0 <= k < |cfg.suspiciousAccounts| && cfg.suspiciousAccounts[k] == tx.accountId.value)
      && forall i :: 0 <= i < |rs| && rs[i].AccountReason? ==>
           tx.accountId.Some? && rs[i] == AccountReason(tx.accountId.value)
  {
    var rs := Evaluate(cfg, tx, detectTime).reasons;
    if AccountRuleFires(cfg, tx) {
      var n := if AmountRuleFires(cfg, tx) then 1 else 0;
      assert rs[n].AccountReason?;
    }
  }

  /** The location reason is present iff the flag is on, the location is
      non-null and not blank, and some parsed entry occurs in it as a
      substring; it carries the location as given (untrimmed). */
  lemma LocationRuleIff(cfg: RuleConfig, tx: Transaction, detectTime: string)
    ensures var rs := Evaluate(cfg, tx, detectTime).reasons;
      (HasLocationReason(rs) <==>
        cfg.enableUnusualLocationCheck && tx.location.Some? && !IsBlank(tx.location.value)
        && exists k :: 0 <= k < |cfg.highRiskLocations| && IsSubstring(cfg.highRiskLocations[k], tx.location.value))
      && forall i :: 0 <= i < |rs| && rs[i].LocationReason? ==>
           tx.location.Some? && rs[i] == LocationReason(tx.location.value)
  {
    var rs := Evaluate(cfg, tx, detectTime).reasons;
    if tx.location.Some? {
      var locs, loc := cfg.highRiskLocations, tx.location.value;
      forall k | 0 <= k < |locs|
        ensures Contains(loc, locs[k]) <==> IsSubstring(locs[k], loc)
      {
        ContainsIff(loc, locs[k]);
      }
    }
    if LocationRuleFires(cfg, tx) {
      assert rs[|rs| - 1].LocationReason?;
    }
  }

  /** With the flag off, the location rule never fires. */
  lemma LocationFlagOff(cfg: RuleConfig, tx: Transaction, detectTime: string)
    requires !cfg.enableUnusualLocationCheck
    ensures !HasLocationReason(Evaluate(cfg, tx, detectTime).reasons)
  {
  }

  /** An empty entry in the high-risk list (from "A,,B" or "A, ,B") makes
      every non-blank location high risk, since every string contains "". */
  lemma EmptyEntryMatchesEveryLocation(locations: seq<string>, location: string)
    requires "" in locations
    requires !IsBlank(location)
    ensures IsHighRiskLocation(locations, Some(location))
  {
    var k :| 0 <= k < |locations| && locations[k] == "";
    ContainsEmpty(location);
  }

  /** An empty setting parses to the single entry "". */
  lemma EmptySettingParse()
    ensures ParseList("") == [""]
  {
    assert JavaSplit("") == [""];
  }

  /** Two adjacent commas between two entries leave an empty entry between them. */
  lemma DoubleCommaParse(a: string, b: string)
    requires a != "" && b != "" && ',' !in a && ',' !in b
    ensures ParseList(a + ",," + b) == [Trim(a), "", Trim(b)]
  {
    var s := a + ",," + b;
    assert s == a + "," + ("" + "," + b);
    SplitAllCons(a, "" + "," + b);
    SplitAllCons("", b);
    SplitAllJoin([b]);
    assert Join([b]) == b;
    assert SplitAll(s) == [a, "", b];
    assert s[|a|] == ',';
    assert JavaSplit(s) == [a, "", b];
  }

  /** An empty high-risk setting makes every non-blank location high risk. */
  lemma EmptySettingMatchesEveryLocation(location: string)
    requires !IsBlank(location)
    ensures IsHighRiskLocation(ParseList(""), Some(location))
  {
    EmptySettingParse();
    EmptyEntryMatchesEveryLocation(ParseList(""), location);
  }

  /** So does a high-risk setting with two adjacent commas, such as "A,,B". */
  lemma DoubleCommaMatchesEveryLocation(a: string, b: string, location: string)
    requires a != "" && b != "" && ',' !in a && ',' !in b
    requires !IsBlank(location)
    ensures IsHighRiskLocation(ParseList(a + ",," + b), Some(location))
  {
    DoubleCommaParse(a, b);
    assert ParseList(a + ",," + b)[1] == "";
    EmptyEntryMatchesEveryLocation(ParseList(a + ",," + b), location);
  }

  /** Whether one rule fires is decided by its own inputs only: two
      transactions that agree on a rule's fields get the same answer from
      it, whatever the other rules say. */
  lemma RulesIndependent(cfg: RuleConfig, tx1: Transaction, tx2: Transaction, t1: string, t2: string)
    ensures tx1.amount == tx2.amount ==>
      (HasAmountReason(Evaluate(cfg, tx1, t1).reasons) <==> HasAmountReason(Evaluate(cfg, tx2, t2).reasons))
    ensures tx1.accountId == tx2.accountId ==>
      (HasAccountReason(Evaluate(cfg, tx1, t1).reasons) <==> HasAccountReason(Evaluate(cfg, tx2, t2).reasons))
    ensures tx1.location == tx2.location ==>
      (HasLocationReason(Evaluate(cfg, tx1, t1).reasons) <==> HasLocationReason(Evaluate(cfg, tx2, t2).reasons))
  {
    AmountRuleIff(cfg, tx1, t1);
    AmountRuleIff(cfg, tx2, t2);
    AccountRuleIff(cfg, tx1, t1);
    AccountRuleIff(cfg, tx2, t2);
    LocationRuleIff(cfg, tx1, t1);
    LocationRuleIff(cfg, tx2, t2);
  }

  // ---------------------------------------------------------------------
  // Reason sentences

  /** The sentence recorded for a reason; amounts are printed with "%.2f". */
  function ReasonText(r: Reason): string {
    match r
    case AmountReason(amount, threshold) =>
      "The transaction amount of " + Fixed2(amount) + " exceeds the threshold of " + Fixed2(threshold) + "."
    case AccountReason(accountId) =>
      "Account " + accountId + " belongs to a known suspicious account."
    case LocationReason(location) =>
      "The transaction location " + location + " belongs to a high risk area."
  }

  /** Each sentence names what its rule saw: the amount sentence holds both
      amounts as "%.2f" prints them, the account sentence the account id, the
      location sentence the location as given. */
  lemma ReasonTextMentions(r: Reason)
    ensures r.AmountReason? ==>
      Contains(ReasonText(r), Fixed2(r.amount)) && Contains(ReasonText(r), Fixed2(r.threshold))
    ensures r.AccountReason? ==> Contains(ReasonText(r), r.accountId)
    ensures r.LocationReason? ==> Contains(ReasonText(r), r.location)
  {
    match r
    case AmountReason(amount, threshold) =>
      var p, m := "The transaction amount of ", " exceeds the threshold of ";
      var a, t := Fixed2(amount), Fixed2(threshold);
      assert ReasonText(r) == p + a + (m + t + ".");
      ContainsMiddle(p, a, m + t + ".");
      assert ReasonText(r) == (p + a + m) + t + ".";
      ContainsMiddle(p + a + m, t, ".");
    case AccountReason(accountId) =>
      ContainsMiddle("Account ", accountId, " belongs to a known suspicious account.");
    case LocationReason(location) =>
      ContainsMiddle("The transaction location ", location, " belongs to a high risk area.");
  }

  // ---------------------------------------------------------------------
  // The service

  class FraudDetectionService {
    var amountThreshold: real
    var suspiciousAccountsStr: string
    var highRiskLocationsStr: string
    var enableUnusualLocationCheck: bool
    var suspiciousAccounts: seq<string>
    var highRiskLocations: seq<string>

    /** The injected configuration values; the lists are parsed by Init. */
    constructor (amountThreshold: real, suspiciousAccountsStr: string, highRiskLocationsStr: string,
                 enableUnusualLocationCheck: bool)
      ensures this.amountThreshold == amountThreshold
      ensures this.suspiciousAccountsStr == suspiciousAccountsStr
      ensures this.highRiskLocationsStr == highRiskLocationsStr
      ensures this.enableUnusualLocationCheck == enableUnusualLocationCheck
      ensures suspiciousAccounts == [] && highRiskLocations == []
    {
      this.amountThreshold := amountThreshold;
      this.suspiciousAccountsStr := suspiciousAccountsStr;
      this.highRiskLocationsStr := highRiskLocationsStr;
      this.enableUnusualLocationCheck := enableUnusualLocationCheck;
      suspiciousAccounts := [];
      highRiskLocations := [];
    }

    /** The configuration the service currently evaluates against. */
    function Config(): RuleConfig
      reads this
    {
      RuleConfig(amountThreshold, suspiciousAccounts, highRiskLocations, enableUnusualLocationCheck)
    }

    /** The lists have been parsed from the configured strings. */
    predicate Initialized()
      reads this
    {
      suspiciousAccounts == ParseList(suspiciousAccountsStr)
      && highRiskLocations == ParseList(highRiskLocationsStr)
    }

    method Init()
      modifies this`suspiciousAccounts, this`highRiskLocations
      ensures Initialized()
      ensures suspiciousAccounts == ParseList(suspiciousAccountsStr)
      ensures highRiskLocations == ParseList(highRiskLocationsStr)
    {
      suspiciousAccounts := ParseList(suspiciousAccountsStr);
      highRiskLocations := ParseList(highRiskLocationsStr);
    }

    /** Applies the three rules to one transaction; `detectTime` is the
        current date as the verdict records it. */
    method DetectFraud(transaction: Transaction, detectTime: string) returns (result: FraudResult)
      ensures result == Evaluate(Config(), transaction, detectTime)
    {
      var fraudReasons: seq<Reason> := [];
      var isFraudulent := false;

      if transaction.amount > amountThreshold {
        fraudReasons := fraudReasons + [AmountReason(transaction.amount, amountThreshold)];
        isFraudulent := true;
      }

      if transaction.accountId.Some? && transaction.accountId.value in suspiciousAccounts {
        fraudReasons := fraudReasons + [AccountReason(transaction.accountId.value)];
        isFraudulent := true;
      }

      if enableUnusualLocationCheck && IsHighRiskLocation(highRiskLocations, transaction.location) {
        fraudReasons := fraudReasons + [LocationReason(transaction.location.value)];
        isFraudulent := true;
      }

      result := FraudResult(transaction.transactionId, isFraudulent, fraudReasons, detectTime);
    }
  }

  // ---------------------------------------------------------------------
  // The configuration and transactions of the repository's unit tests

  const TestAccounts: seq<string> := ["ACCT-123", "ACCT-456"]
  const TestLocations: seq<string> := ["HighRiskCountry1", "HighRiskCountry2", "SuspiciousRegion", "Unknown"]

  /** "ACCT-123,ACCT-456" parses to its two ids. */
  lemma TestAccountsParse()
    ensures ParseList("ACCT-123,ACCT-456") == TestAccounts
  {
    var pad := ["", ""];
    TestEntriesWellFormed(TestAccounts, pad);
    PaddedAccounts();
    assert Join(TestAccounts) == "ACCT-123,ACCT-456";
    ParseJoined(TestAccounts, pad);
  }

  lemma PaddedAccounts()
    ensures Padded(["", ""], TestAccounts) == TestAccounts
  {
    var ps := Padded(["", ""], TestAccounts);
    assert ps[0] == "" + TestAccounts[0] == TestAccounts[0];
    assert ps[1] == "" + TestAccounts[1] == TestAccounts[1];
  }

  /** The unit tests' high-risk setting "HighRiskCountry1, HighRiskCountry2,
      SuspiciousRegion, Unknown", written piece by piece. */
  const TestLocationsStr: string :=
    "HighRiskCountry1" + "," + " HighRiskCountry2" + "," + " SuspiciousRegion" + "," + " Unknown"

  /** The test's high-risk setting parses to the four names without their
      leading spaces, so "HighRiskCountry1" is an entry as written. */
  lemma TestLocationsParse()
    ensures ParseList(TestLocationsStr) == TestLocations
  {
    var pad := ["", " ", " ", " "];
    TestEntriesWellFormed(TestLocations, pad);
    PaddedLocations();
    ParseJoined(TestLocations, pad);
  }

  lemma PaddedLocations()
    ensures Join(Padded(["", " ", " ", " "], TestLocations)) == TestLocationsStr
  {
    var qs := Padded(["", " ", " ", " "], TestLocations);
    assert qs[0] == "" + TestLocations[0] == "HighRiskCountry1";
    assert qs[1] == " HighRiskCountry2";
    assert qs[2] == " SuspiciousRegion";
    assert qs[3] == " Unknown";
    assert qs[3..] == [" Unknown"];
    assert qs[2..][1..] == qs[3..];
    assert qs[1..][1..] == qs[2..];
    assert Join(qs[2..]) == " SuspiciousRegion" + "," + " Unknown";
    assert Join(qs[1..]) == " HighRiskCountry2" + "," + (" SuspiciousRegion" + "," + " Unknown");
    assert Join(qs) == "HighRiskCountry1" + "," + (" HighRiskCountry2" + "," + (" SuspiciousRegion" + "," + " Unknown"));
  }

  /** The test lists meet ParseJoined's demands. */
  lemma TestEntriesWellFormed(entries: seq<string>, pad: seq<string>)
    requires entries == TestAccounts || entries == TestLocations
    requires pad == ["", ""] || pad == ["", " ", " ", " "]
    ensures forall k :: 0 <= k < |entries| ==> entries[k] != "" && IsTrimmed(entries[k]) && ',' !in entries[k]
    ensures forall k :: 0 <= k < |pad| ==> forall i :: 0 <= i < |pad[k]| ==> pad[k][i] == ' '
  {
  }

  /** The unit tests' configuration once Init has parsed it. */
  function TestConfig(): RuleConfig {
    RuleConfig(10000.0, ParseList("ACCT-123,ACCT-456"), ParseList(TestLocationsStr), true)
  }

  function TestTransaction(id: string, account: string, amount: real, location: string): Transaction {
    Transaction(Some(id), Some(account), amount, Some(location), None, None)
  }

  lemma TestConfigParsed()
    ensures TestConfig() == RuleConfig(10000.0, TestAccounts, TestLocations, true)
  {
    TestAccountsParse();
    TestLocationsParse();
  }

  /** The unit tests' accounts: "ACCT-123" is listed, "ACCT-789" is not. */
  lemma TestAccountsMatch()
    ensures "ACCT-123" in TestAccounts && "ACCT-789" !in TestAccounts
  {
    assert TestAccounts[0] == "ACCT-123";
    assert "ACCT-789"[7] != "ACCT-123"[7] && "ACCT-789"[7] != "ACCT-456"[7];
  }

  /** testHighAmountTransaction: a large amount alone gives one amount reason. */
  lemma TestHighAmount(t: string)
    ensures var r := Evaluate(TestConfig(), TestTransaction("TX-001", "ACCT-789", 15000.0, "New York"), t);
      r.isFraudulent && r.reasons == [AmountReason(15000.0, 10000.0)]
  {
    TestConfigParsed();
    TestAccountsMatch();
    TestLocationsMatch();
  }

  /** testSuspiciousAccountTransaction: a listed account alone gives one account reason. */
  lemma TestSuspiciousAccount(t: string)
    ensures var r := Evaluate(TestConfig(), TestTransaction("TX-002", "ACCT-123", 5000.0, "London"), t);
      r.isFraudulent && r.reasons == [AccountReason("ACCT-123")]
  {
    TestConfigParsed();
    TestAccountsMatch();
    TestLocationsMatch();
    var tx := TestTransaction("TX-002", "ACCT-123", 5000.0, "London");
    assert !AmountRuleFires(TestConfig(), tx);
    assert AccountRuleFires(TestConfig(), tx);
    assert !LocationRuleFires(TestConfig(), tx);
  }

  /** testNormalTransaction: no rule fires, no reasons, not fraudulent. */
  lemma TestNormal(t: string)
    ensures var r := Evaluate(TestConfig(), TestTransaction("TX-003", "ACCT-789", 8000.0, "Paris"), t);
      !r.isFraudulent && r.reasons == []
  {
    TestConfigParsed();
    TestAccountsMatch();
    TestLocationsMatch();
  }

  /** testHighRiskLocationTransaction: a high-risk location alone gives one location reason. */
  lemma TestHighRiskLocation(t: string)
    ensures var r := Evaluate(TestConfig(), TestTransaction("TX-004", "ACCT-789", 8000.0, "HighRiskCountry1"), t);
      r.isFraudulent && r.reasons == [LocationReason("HighRiskCountry1")]
  {
    TestConfigParsed();
    TestAccountsMatch();
    TestLocationsMatch();
  }

  /** testMultipleRulesTriggered: all three rules give three reasons. */
  lemma TestMultipleRules(t: string)
    ensures var r := Evaluate(TestConfig(), TestTransaction("TX-005", "ACCT-123", 15000.0, "HighRiskCountry1"), t);
      r.isFraudulent && |r.reasons| == 3
  {
    TestConfigParsed();
    TestAccountsMatch();
    TestLocationsMatch();
  }

  /** A listed account at a high-risk location, under the threshold: the
      account and location reasons, in that order, and no amount reason. */
  lemma AccountAndLocation(t: string)
    ensures var r := Evaluate(TestConfig(), TestTransaction("TX-006", "ACCT-123", 8000.0, "HighRiskCountry1"), t);
      r.isFraudulent && r.reasons == [AccountReason("ACCT-123"), LocationReason("HighRiskCountry1")]
  {
    TestConfigParsed();
    TestAccountsMatch();
    TestLocationsMatch();
  }

  /** Which of the test locations the parsed test list marks as high risk. */
  lemma TestLocationsMatch()
    ensures IsHighRiskLocation(TestLocations, Some("HighRiskCountry1"))
    ensures !IsHighRiskLocation(TestLocations, Some("New York"))
    ensures !IsHighRiskLocation(TestLocations, Some("London"))
    ensures !IsHighRiskLocation(TestLocations, Some("Paris"))
  {
    assert "HighRiskCountry1"[0] == 'H' && !IsWhitespace('H');
    assert StartsWith("HighRiskCountry1", TestLocations[0]);
    NoTestEntryIn("New York");
    NoTestEntryIn("London");
    NoTestEntryIn("Paris");
  }

  /** A location holding none of the letters 'H', 'S', 'U' contains no test entry. */
  lemma NoTestEntryIn(location: string)
    requires 'H' !in location && 'S' !in location && 'U' !in location
    ensures forall k :: 0 <= k < |TestLocations| ==> !Contains(location, TestLocations[k])
  {
    forall k | 0 <= k < |TestLocations|
      ensures !Contains(location, TestLocations[k])
    {
      FirstCharAbsent(location, TestLocations[k]);
    }
  }

  /** A needle whose first char does not occur in s is not contained in s. */
  lemma FirstCharAbsent(s: string, needle: string)
    requires needle != [] && needle[0] !in s
    ensures !Contains(s, needle)
  {
    ContainsIff(s, needle);
  }

  /** The amount sentence of testHighAmountTransaction contains
      "exceeds the threshold of 10000.0", since the threshold prints as "10000.00". */
  lemma TestAmountText()
    ensures Contains(ReasonText(AmountReason(15000.0, 10000.0)), "exceeds the threshold of 10000.0")
  {
    TestAmounts();
    var e := "exceeds the threshold of ";
    assert " exceeds the threshold of " == " " + e;
    assert Fixed2(10000.0) == "10000.0" + "0";
    Regroup("The transaction amount of ", Fixed2(15000.0), " ", e, "10000.0", "0", ".");
    assert "exceeds the threshold of 10000.0" == e + "10000.0";
    ContainsMiddle("The transaction amount of " + Fixed2(15000.0) + " ", e + "10000.0", "0" + ".");
  }

  lemma Regroup(p: string, f: string, s: string, e: string, t: string, z: string, d: string)
    ensures p + f + (s + e) + (t + z) + d == (p + f + s) + (e + t) + (z + d)
  {
  }

  /** The account sentence of testSuspiciousAccountTransaction contains
      "known suspicious account". */
  lemma TestAccountText()
    ensures Contains(ReasonText(AccountReason("ACCT-123")), "known suspicious account")
  {
    var a := "Account " + "ACCT-123" + " belongs to a ";
    var b, c := "known suspicious account", ".";
    assert " belongs to a known suspicious account." == " belongs to a " + b + c;
    assert ReasonText(AccountReason("ACCT-123")) == a + b + c;
    ContainsMiddle(a, b, c);
  }

  /** The location sentence of testHighRiskLocationTransaction contains
      "high risk area". */
  lemma TestLocationText()
    ensures Contains(ReasonText(LocationReason("HighRiskCountry1")), "high risk area")
  {
    var a := "The transaction location " + "HighRiskCountry1" + " belongs to a ";
    var b, c := "high risk area", ".";
    assert " belongs to a high risk area." == " belongs to a " + b + c;
    assert ReasonText(LocationReason("HighRiskCountry1")) == a + b + c;
    ContainsMiddle(a, b, c);
  }

  /** The unit test's amount and threshold as "%.2f" prints them. */
  lemma TestAmounts()
    ensures Fixed2(15000.0) == "15000.00"
    ensures Fixed2(10000.0) == "10000.00"
  {
    Fixed2Whole(15000.0, 15000);
    Fixed2Whole(10000.0, 10000);
    Decimal15000();
    Decimal10000();
  }

  lemma Decimal15000()
    ensures NatToDecimal(15000) == "15000"
  {
    AppendDigit(1, 5);
    AppendDigit(15, 0);
    AppendDigit(150, 0);
    AppendDigit(1500, 0);
  }

  lemma Decimal10000()
    ensures NatToDecimal(10000) == "10000"
  {
    AppendDigit(1, 0);
    AppendDigit(10, 0);
    AppendDigit(100, 0);
    AppendDigit(1000, 0);
  }

  /** Printing n followed by one more digit d. */
  lemma AppendDigit(n: nat, d: nat)
    requires 0 < n && d < 10
    ensures NatToDecimal(n * 10 + d) == NatToDecimal(n) + [DigitChar(d)]
  {
    var m := n * 10 + d;
    assert m / 10 == n && m % 10 == d;
  }

  /** A whole, non-negative amount prints as its digits and ".00". */
  lemma Fixed2Whole(x: real, n: nat)
    requires x == n as real
    ensures Fixed2(x) == NatToDecimal(n) + ".00"
  {
    assert Cents(x) == n * 100;
    assert n * 100 / 100 == n;
    assert Hundredths(n * 100) == "00";
  }
}

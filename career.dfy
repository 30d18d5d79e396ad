/** The rule-based labeller that produces the training target
    "Recommended Career" (`generate_career` in `src/train_model.py`): every
    role starts at 0, a block of common signals moves all roles together,
    each role then collects points from its own threshold rules, and the
    role with the highest score wins, first in declaration order on ties,
    with "Software Engineer" as the answer when no score is positive. */
module Career {
  import opened PyStr

  /** One student row after numeric conversion. The three text fields are
      `str(...)` of the cell (for English, of its "Fair" default when absent). */
  datatype StudentRecord = StudentRecord(
    dsa: real,          // Data Structures And Algorithm Marks
    dbms: real,         // DBMS Marks
    cgpa: real,         // CGPA
    repos: real,        // GitHub total repositories
    commits: real,      // GitHub commits/month
    coding: real,       // Coding practice hours/week
    aptitude: real,     // Aptitude score
    backlogs: real,     // Number of backlogs
    reappears: real,    // Number of Reappears
    attendance: real,   // Attandance
    english: string,    // English proficiency
    frameworks: string, // Experience with frameworks
    programming: string // Programming proficiency
  )

  /** The six keys of `scores`, in declaration order. */
  datatype Role = AIMLEngineer | SoftwareEngineer | WebDeveloper | DataAnalyst | DevOpsEngineer | CyberSecurityEngineer

  const Roles: seq<Role> := [AIMLEngineer, SoftwareEngineer, WebDeveloper, DataAnalyst, DevOpsEngineer, CyberSecurityEngineer]

  function RoleName(r: Role): string {
    match r
    case AIMLEngineer => "AI/ML Engineer"
    case SoftwareEngineer => "Software Engineer"
    case WebDeveloper => "Web Developer"
    case DataAnalyst => "Data Analyst"
    case DevOpsEngineer => "DevOps Engineer"
    case CyberSecurityEngineer => "Cyber Security Engineer"
  }

  /** The six career labels the labeller can produce. */
  const RoleNames: set<string> := set r | r in Roles :: RoleName(r)

  /** The position of a role in declaration order. */
  function IndexOf(r: Role): (i: nat)
    ensures i < |Roles| && Roles[i] == r
  {
    match r
    case AIMLEngineer => 0
    case SoftwareEngineer => 1
    case WebDeveloper => 2
    case DataAnalyst => 3
    case DevOpsEngineer => 4
    case CyberSecurityEngineer => 5
  }

  /** The six roles are distinct and so are their names. */
  lemma RolesDistinct()
    ensures |Roles| == 6
    ensures forall i, j | 0 <= i < j < |Roles| :: Roles[i] != Roles[j] && RoleName(Roles[i]) != RoleName(Roles[j])
  {
  }

  /** A score container: one entry per role. */
  predicate Complete(scores: map<Role, int>) {
    forall r: Role :: r in scores
  }

  /** A map that holds each of the six roles is a score container. */
  lemma CompleteIfAllRoles(scores: map<Role, int>)
    requires forall i | 0 <= i < |Roles| :: Roles[i] in scores
    ensures Complete(scores)
  {
    forall r: Role ensures r in scores {
      assert Roles[IndexOf(r)] == r;
    }
  }

  // ---------------------------------------------------------------------------
  // Text features
  // ---------------------------------------------------------------------------

  /** The dropdown word for English proficiency, as a number: the text is
      trimmed and lower-cased, then poor, fair, good and excellent map to
      40, 60, 80 and 95; anything else counts as "fair". */
  function EnglishScore(text: string): (n: int)
    ensures n in {40, 60, 80, 95}
    ensures n == 40 <==> Lower(Strip(text)) == "poor"
    ensures n == 80 <==> Lower(Strip(text)) == "good"
    ensures n == 95 <==> Lower(Strip(text)) == "excellent"
    ensures n >= 70 <==> Lower(Strip(text)) in {"good", "excellent"}
  {
    var key := Lower(Strip(text));
    if key == "poor" then 40
    else if key == "fair" then 60
    else if key == "good" then 80
    else if key == "excellent" then 95
    else 60
  }

  /** `[f.strip() for f in pieces if f.strip()]`. */
  function StrippedNonEmpty(pieces: seq<string>): (tokens: seq<string>)
    ensures |tokens| <= |pieces|
  {
    if pieces == [] then []
    else
      var t := Strip(pieces[0]);
      (if t != [] then [t] else []) + StrippedNonEmpty(pieces[1..])
  }

  /** The tokens of "Experience with frameworks": the text lower-cased, every
      ',' turned into ';', split on ';', each piece trimmed, empty pieces dropped. */
  function FrameworkTokens(text: string): seq<string> {
    StrippedNonEmpty(Split(ReplaceChar(Lower(text), ',', ';'), ';'))
  }

  /** A well-formed framework token. */
  predicate IsToken(t: string) {
    t != [] && Strip(t) == t && Free(t, ',') && Free(t, ';') && NoCapitals(t)
  }

  lemma {:induction false} StrippedNonEmptyTokens(pieces: seq<string>)
    requires forall i | 0 <= i < |pieces| :: Free(pieces[i], ';') && NoCapitals(pieces[i])
    requires forall i | 0 <= i < |pieces| :: Free(pieces[i], ',')
    ensures forall i | 0 <= i < |StrippedNonEmpty(pieces)| :: IsToken(StrippedNonEmpty(pieces)[i])
  {
    if pieces != [] {
      StrippedNonEmptyTokens(pieces[1..]);
      var t := Strip(pieces[0]);
      var rest := StrippedNonEmpty(pieces[1..]);
      if t != [] {
        StripToken(pieces[0]);
        assert StrippedNonEmpty(pieces) == [t] + rest;
      } else {
        assert StrippedNonEmpty(pieces) == rest;
      }
    }
  }

  /** A non-blank piece free of separators and capitals strips to a token. */
  lemma StripToken(p: string)
    requires Free(p, ';') && Free(p, ',') && NoCapitals(p)
    requires Strip(p) != []
    ensures IsToken(Strip(p))
  {
    var t := Strip(p);
    StripIdempotent(p);
    var k := LeadingSpaces(p);
    assert t == p[k..][..|p[k..]| - TrailingSpaces(p[k..])];
    assert forall j | 0 <= j < |t| :: t[j] == p[k + j];
  }

  /** Every framework token is non-empty, trimmed, lower-case and holds no
      ',' or ';'. */
  lemma FrameworkTokensWellFormed(text: string)
    ensures forall i | 0 <= i < |FrameworkTokens(text)| :: IsToken(FrameworkTokens(text)[i])
  {
    var replaced := ReplaceChar(Lower(text), ',', ';');
    var pieces := Split(replaced, ';');
    SplitPiecesFree(replaced, ';');
    JoinSplit(replaced, ';');
    forall i | 0 <= i < |pieces| ensures Free(pieces[i], ',') && NoCapitals(pieces[i]) {
      PiecesInherit(pieces, i, ';');
    }
    StrippedNonEmptyTokens(pieces);
  }

  /** A character that is not in the joined text is in none of the pieces. */
  lemma {:induction false} PiecesInherit(pieces: seq<string>, i: int, sep: char)
    requires |pieces| >= 1 && 0 <= i < |pieces|
    ensures forall c | Free(Join(pieces, sep), c) :: Free(pieces[i], c)
    ensures NoCapitals(Join(pieces, sep)) ==> NoCapitals(pieces[i])
  {
    if |pieces| > 1 {
      var rest := Join(pieces[1..], sep);
      assert Join(pieces, sep) == pieces[0] + [sep] + rest;
      var whole := Join(pieces, sep);
      assert forall k | 0 <= k < |pieces[0]| :: whole[k] == pieces[0][k];
      assert forall k | 0 <= k < |rest| :: whole[|pieces[0]| + 1 + k] == rest[k];
      if i > 0 {
        PiecesInherit(pieces[1..], i - 1, sep);
      }
    }
  }

  /** `any(k in tokens for k in keywords)`: whole-token equality, not substring. */
  predicate AnyIn(keywords: seq<string>, tokens: seq<string>) {
    |keywords| > 0 && (keywords[0] in tokens || AnyIn(keywords[1..], tokens))
  }

  /** A keyword list matches exactly when one of its keywords is itself a token. */
  lemma {:induction false} AnyInSpec(keywords: seq<string>, tokens: seq<string>)
    ensures AnyIn(keywords, tokens) <==> exists i | 0 <= i < |keywords| :: keywords[i] in tokens
  {
    if keywords != [] {
      var rest := keywords[1..];
      AnyInSpec(rest, tokens);
      if exists i | 0 <= i < |keywords| :: keywords[i] in tokens {
        var i :| 0 <= i < |keywords| && keywords[i] in tokens;
        if i > 0 {
          assert rest[i - 1] in tokens;
        }
      }
      if AnyIn(rest, tokens) {
        var i :| 0 <= i < |rest| && rest[i] in tokens;
        assert keywords[i + 1] in tokens;
      }
    }
  }

  // ---------------------------------------------------------------------------
  // The rule table
  // ---------------------------------------------------------------------------

  function Pts(b: bool, k: int): int {
    if b then k else 0
  }

  /** The common signals, added to every role alike; `english` is the
      numeric English proficiency. */
  function CommonPoints(s: StudentRecord, english: int): int {
    Pts(s.cgpa >= 8.0, 1) + Pts(s.cgpa >= 8.5, 1)
    + Pts(s.backlogs > 0.0 || s.reappears > 0.0, -1)
    + Pts(s.backlogs >= 3.0 || s.reappears >= 3.0, -1)
    + Pts(s.attendance < 70.0, -1)
    + Pts(english >= 70, 1)
    + Pts(s.aptitude >= 70.0, 1)
  }

  function CommonSignal(s: StudentRecord): int {
    CommonPoints(s, EnglishScore(s.english))
  }

  /** The points a role collects from its own rules. */
  function RoleSignal(s: StudentRecord, r: Role): int {
    var fw := FrameworkTokens(s.frameworks);
    var prog := Lower(s.programming);
    match r
    case AIMLEngineer =>
      Pts(s.dsa >= 80.0, 1) + Pts("python" in fw, 1)
      + Pts(AnyIn(["numpy", "pandas", "tensorflow", "pytorch", "sklearn"], fw), 2)
      + Pts(s.coding >= 8.0, 1)
      + Pts(s.aptitude >= 85.0 && s.cgpa >= 8.5 && s.dsa >= 85.0, 2)
    case SoftwareEngineer =>
      Pts(s.dsa >= 75.0, 2) + Pts(s.coding >= 10.0, 2) + Pts(s.repos >= 2.0, 1) + Pts(s.commits >= 4.0, 1)
      + Pts(AnyIn(["java", "c++", "c#", "golang"], fw), 1)
      + Pts(Contains(prog, "advanced") || Contains(prog, "intermediate"), 1)
    case WebDeveloper =>
      Pts(AnyIn(["html", "css", "javascript", "react", "angular", "vue", "django", "node", "next.js", "express"], fw), 2)
      + Pts(s.coding >= 6.0, 1) + Pts(s.repos >= 2.0, 1) + Pts(s.commits >= 4.0, 1)
    case DataAnalyst =>
      Pts(s.dbms >= 75.0, 2) + Pts(s.aptitude >= 65.0, 1)
      + Pts(AnyIn(["excel", "power bi", "tableau", "sql"], fw), 2)
      + Pts(AnyIn(["numpy", "pandas"], fw), 1)
      + Pts(s.coding >= 4.0, 1)
    case DevOpsEngineer =>
      Pts(AnyIn(["devops", "docker", "kubernetes", "k8s", "aws", "azure", "gcp", "jenkins", "ci/cd", "cloud"], fw), 3)
      + Pts(s.repos >= 2.0, 1) + Pts(s.commits >= 5.0, 1) + Pts(s.aptitude >= 70.0, 1)
    case CyberSecurityEngineer =>
      Pts(AnyIn(["security", "cyber", "network", "penetration testing", "ethical hacking", "kali"], fw), 3)
      + Pts(Contains(prog, "security") || Contains(prog, "cyber"), 2)
      + Pts(s.aptitude >= 70.0, 1)
  }

  /** The final content of `scores[r]`. */
  function Score(s: StudentRecord, r: Role): int {
    CommonSignal(s) + RoleSignal(s, r)
  }

  /** The common signals lie between -3 and +4. */
  lemma CommonSignalBounds(s: StudentRecord)
    ensures -3 <= CommonSignal(s) <= 4
  {
  }

  /** Role rules never subtract, and no role collects more than 8 points. */
  lemma RoleSignalBounds(s: StudentRecord, r: Role)
    ensures 0 <= RoleSignal(s, r) <= 8
  {
    match r
    case AIMLEngineer =>
    case SoftwareEngineer =>
    case WebDeveloper =>
    case DataAnalyst =>
    case DevOpsEngineer =>
    case CyberSecurityEngineer =>
  }

  // ---------------------------------------------------------------------------
  // Final selection
  // ---------------------------------------------------------------------------

  /** `max(keys, key=...)`: the position of the first maximal value (Python's
      `max` keeps the earlier candidate unless a later one is strictly greater). */
  function FirstMax(vals: seq<int>): (k: nat)
    requires vals != []
    ensures k < |vals|
    ensures forall j | 0 <= j < |vals| :: vals[j] <= vals[k]
    ensures forall j | 0 <= j < k :: vals[j] < vals[k]
  {
    if |vals| == 1 then 0
    else
      var b := FirstMax(vals[..|vals| - 1]);
      if vals[|vals| - 1] > vals[b] then |vals| - 1 else b
  }

  /** The scores in declaration order. */
  function ScoreList(scores: map<Role, int>): (vals: seq<int>)
    requires Complete(scores)
    ensures |vals| == |Roles|
    ensures forall i | 0 <= i < |Roles| :: vals[i] == scores[Roles[i]]
  {
    seq(|Roles|, i requires 0 <= i < |Roles| => scores[Roles[i]])
  }

  /** The role `max(scores, key=scores.get)` returns. */
  function BestRole(scores: map<Role, int>): Role
    requires Complete(scores)
  {
    Roles[FirstMax(ScoreList(scores))]
  }

  /** `best_role = max(scores, key=scores.get)`, then the safe default when
      the best score is not positive. */
  function Select(scores: map<Role, int>): string
    requires Complete(scores)
  {
    var best := BestRole(scores);
    if scores[best] <= 0 then "Software Engineer" else RoleName(best)
  }

  /** The selected label is one of the six role names; the best role holds
      the maximum score; the label is "Software Engineer" when that maximum is
      not positive, and otherwise the name of the earliest role in declaration
      order that holds it. */
  lemma SelectSpec(scores: map<Role, int>)
    requires Complete(scores)
    ensures Select(scores) in RoleNames
    ensures forall r: Role :: scores[r] <= scores[BestRole(scores)]
    ensures scores[BestRole(scores)] <= 0 ==> Select(scores) == "Software Engineer"
    ensures scores[BestRole(scores)] > 0 ==>
      exists k | 0 <= k < |Roles| ::
        && Select(scores) == RoleName(Roles[k])
        && scores[Roles[k]] == scores[BestRole(scores)]
        && forall j | 0 <= j < k :: scores[Roles[j]] < scores[BestRole(scores)]
  {
    var vals := ScoreList(scores);
    var k := FirstMax(vals);
    forall r: Role ensures scores[r] <= scores[BestRole(scores)] {
      assert vals[IndexOf(r)] == scores[r];
    }
    assert RoleName(Roles[k]) in RoleNames;
  }

  /** Adding the same amount to every score does not move the first maximum. */
  lemma {:induction false} FirstMaxShift(vals: seq<int>, shifted: seq<int>, c: int)
    requires vals != [] && |shifted| == |vals|
    requires forall i | 0 <= i < |vals| :: shifted[i] == vals[i] + c
    ensures FirstMax(shifted) == FirstMax(vals)
  {
    if |vals| > 1 {
      FirstMaxShift(vals[..|vals| - 1], shifted[..|shifted| - 1], c);
    }
  }

  /** A common amount added to every role never changes which role is best:
      it can only push the best score to 0 or below and so trigger the default. */
  lemma ShiftOnlyGates(base: map<Role, int>, scores: map<Role, int>, c: int)
    requires Complete(base) && Complete(scores)
    requires forall r: Role :: scores[r] == base[r] + c
    ensures BestRole(scores) == BestRole(base)
    ensures Select(scores) == if base[BestRole(base)] + c <= 0 then "Software Engineer" else RoleName(BestRole(base))
  {
    FirstMaxShift(ScoreList(base), ScoreList(scores), c);
  }

  /** The points each role collects from its own rules. */
  function RoleSignals(s: StudentRecord): (signals: map<Role, int>)
    ensures Complete(signals)
  {
    var signals := map r | r in Roles :: RoleSignal(s, r);
    CompleteIfAllRoles(signals);
    signals
  }

  /** The final `scores` dictionary of a student. */
  function Scores(s: StudentRecord): (scores: map<Role, int>)
    ensures Complete(scores)
  {
    var scores := map r | r in Roles :: Score(s, r);
    CompleteIfAllRoles(scores);
    scores
  }

  /** The label `generate_career` assigns to a student. */
  function CareerOf(s: StudentRecord): string {
    Select(Scores(s))
  }

  /** The label is the winner of the role rules alone, or "Software Engineer"
      when the common signals bring that winner's score to 0 or below. */
  lemma CommonSignalsOnlyGate(s: StudentRecord)
    ensures var w := BestRole(RoleSignals(s));
      CareerOf(s) == if CommonSignal(s) + RoleSignal(s, w) <= 0 then "Software Engineer" else RoleName(w)
  {
    var base := RoleSignals(s);
    var scores := Scores(s);
    forall r: Role ensures scores[r] == base[r] + CommonSignal(s) {
      assert r == Roles[IndexOf(r)];
    }
    ShiftOnlyGates(base, scores, CommonSignal(s));
  }

  // ---------------------------------------------------------------------------
  // The labeller, step by step as the source runs it
  // ---------------------------------------------------------------------------

  /** `for r in scores: scores[r] += delta`. */
  method AddToAll(scores: map<Role, int>, delta: int) returns (out: map<Role, int>)
    requires Complete(scores)
    ensures Complete(out)
    ensures forall r: Role :: out[r] == scores[r] + delta
  {
    out := scores;
    for i := 0 to |Roles|
      invariant Complete(out)
      invariant forall j | 0 <= j < i :: out[Roles[j]] == scores[Roles[j]] + delta
      invariant forall j | i <= j < |Roles| :: out[Roles[j]] == scores[Roles[j]]
    {
      out := out[Roles[i] := out[Roles[i]] + delta];
    }
    forall r: Role ensures out[r] == scores[r] + delta {
      assert Roles[IndexOf(r)] == r;
    }
  }

  /** Every role holds the same score `v`. */
  predicate Uniform(scores: map<Role, int>, v: int) {
    Complete(scores) && forall r: Role :: scores[r] == v
  }

  /** One common signal, `if cond: for r in scores: scores[r] += delta`, on
      a container whose roles all hold `v`. */
  method CommonSignal1(scores: map<Role, int>, cond: bool, delta: int, ghost v: int) returns (out: map<Role, int>)
    requires Uniform(scores, v)
    ensures Uniform(out, v + Pts(cond, delta))
  {
    if cond {
      out := AddToAll(scores, delta);
    } else {
      out := scores;
    }
  }

  /** The block of common signals, given the truth of its seven conditions in
      source order: each one that holds moves every role by the same amount. */
  method CommonSignals(scores: map<Role, int>, highCgpa: bool, topCgpa: bool, anyBacklog: bool,
                       manyBacklogs: bool, lowAttendance: bool, goodEnglish: bool, goodAptitude: bool)
    returns (out: map<Role, int>)
    requires Uniform(scores, 0)
    ensures Uniform(out, Pts(highCgpa, 1) + Pts(topCgpa, 1) + Pts(anyBacklog, -1) + Pts(manyBacklogs, -1)
                         + Pts(lowAttendance, -1) + Pts(goodEnglish, 1) + Pts(goodAptitude, 1))
  {
    ghost var v := 0;
    out := CommonSignal1(scores, highCgpa, 1, v);
    v := v + Pts(highCgpa, 1);
    out := CommonSignal1(out, topCgpa, 1, v);
    v := v + Pts(topCgpa, 1);
    out := CommonSignal1(out, anyBacklog, -1, v);
    v := v + Pts(anyBacklog, -1);
    out := CommonSignal1(out, manyBacklogs, -1, v);
    v := v + Pts(manyBacklogs, -1);
    out := CommonSignal1(out, lowAttendance, -1, v);
    v := v + Pts(lowAttendance, -1);
    out := CommonSignal1(out, goodEnglish, 1, v);
    v := v + Pts(goodEnglish, 1);
    out := CommonSignal1(out, goodAptitude, 1, v);
  }

  /** The AI / ML Engineer rules, applied to that role's running score. */
  method AIMLRules(s: StudentRecord, frameworks: seq<string>, score: int) returns (ai: int)
    requires frameworks == FrameworkTokens(s.frameworks)
    ensures ai == score + RoleSignal(s, AIMLEngineer)
  {
    ai := score;
    if s.dsa >= 80.0 { ai := ai + 1; }
    if "python" in frameworks { ai := ai + 1; }
    if AnyIn(["numpy", "pandas", "tensorflow", "pytorch", "sklearn"], frameworks) { ai := ai + 2; }
    if s.coding >= 8.0 { ai := ai + 1; }
    if s.aptitude >= 85.0 && s.cgpa >= 8.5 && s.dsa >= 85.0 { ai := ai + 2; }
  }

  /** The Software Engineer rules. */
  method SoftwareRules(s: StudentRecord, frameworks: seq<string>, progProf: string, score: int) returns (se: int)
    requires frameworks == FrameworkTokens(s.frameworks) && progProf == Lower(s.programming)
    ensures se == score + RoleSignal(s, SoftwareEngineer)
  {
    se := score;
    if s.dsa >= 75.0 { se := se + 2; }
    if s.coding >= 10.0 { se := se + 2; }
    if s.repos >= 2.0 { se := se + 1; }
    if s.commits >= 4.0 { se := se + 1; }
    if AnyIn(["java", "c++", "c#", "golang"], frameworks) { se := se + 1; }
    if Contains(progProf, "advanced") || Contains(progProf, "intermediate") { se := se + 1; }
  }

  /** The Web Developer rules. */
  method WebRules(s: StudentRecord, frameworks: seq<string>, score: int) returns (web: int)
    requires frameworks == FrameworkTokens(s.frameworks)
    ensures web == score + RoleSignal(s, WebDeveloper)
  {
    web := score;
    if AnyIn(["html", "css", "javascript", "react", "angular", "vue", "django", "node", "next.js", "express"], frameworks) {
      web := web + 2;
    }
    if s.coding >= 6.0 { web := web + 1; }
    if s.repos >= 2.0 { web := web + 1; }
    if s.commits >= 4.0 { web := web + 1; }
  }

  /** The Data Analyst rules. */
  method DataAnalystRules(s: StudentRecord, frameworks: seq<string>, score: int) returns (da: int)
    requires frameworks == FrameworkTokens(s.frameworks)
    ensures da == score + RoleSignal(s, DataAnalyst)
  {
    da := score;
    if s.dbms >= 75.0 { da := da + 2; }
    if s.aptitude >= 65.0 { da := da + 1; }
    if AnyIn(["excel", "power bi", "tableau", "sql"], frameworks) { da := da + 2; }
    if AnyIn(["numpy", "pandas"], frameworks) { da := da + 1; }
    if s.coding >= 4.0 { da := da + 1; }
  }

  /** The DevOps Engineer rules. */
  method DevOpsRules(s: StudentRecord, frameworks: seq<string>, score: int) returns (ops: int)
    requires frameworks == FrameworkTokens(s.frameworks)
    ensures ops == score + RoleSignal(s, DevOpsEngineer)
  {
    ops := score;
    if AnyIn(["devops", "docker", "kubernetes", "k8s", "aws", "azure", "gcp", "jenkins", "ci/cd", "cloud"], frameworks) {
      ops := ops + 3;
    }
    if s.repos >= 2.0 { ops := ops + 1; }
    if s.commits >= 5.0 { ops := ops + 1; }
    if s.aptitude >= 70.0 { ops := ops + 1; }
  }

  /** The Cyber Security Engineer rules. */
  method CyberSecurityRules(s: StudentRecord, frameworks: seq<string>, progProf: string, score: int) returns (sec: int)
    requires frameworks == FrameworkTokens(s.frameworks) && progProf == Lower(s.programming)
    ensures sec == score + RoleSignal(s, CyberSecurityEngineer)
  {
    sec := score;
    if AnyIn(["security", "cyber", "network", "penetration testing", "ethical hacking", "kali"], frameworks) {
      sec := sec + 3;
    }
    if Contains(progProf, "security") || Contains(progProf, "cyber") { sec := sec + 2; }
    if s.aptitude >= 70.0 { sec := sec + 1; }
  }

  /** The role rules of every role, each applied to that role's running score. */
  method RoleRules(s: StudentRecord, frameworks: seq<string>, progProf: string, scores: map<Role, int>)
    returns (out: map<Role, int>)
    requires frameworks == FrameworkTokens(s.frameworks) && progProf == Lower(s.programming)
    requires Complete(scores)
    ensures Complete(out)
    ensures forall r: Role :: out[r] == scores[r] + RoleSignal(s, r)
  {
    out := scores;
    var ai := AIMLRules(s, frameworks, out[AIMLEngineer]);
    out := out[AIMLEngineer := ai];
    var se := SoftwareRules(s, frameworks, progProf, out[SoftwareEngineer]);
    out := out[SoftwareEngineer := se];
    var web := WebRules(s, frameworks, out[WebDeveloper]);
    out := out[WebDeveloper := web];
    var da := DataAnalystRules(s, frameworks, out[DataAnalyst]);
    out := out[DataAnalyst := da];
    var ops := DevOpsRules(s, frameworks, out[DevOpsEngineer]);
    out := out[DevOpsEngineer := ops];
    var sec := CyberSecurityRules(s, frameworks, progProf, out[CyberSecurityEngineer]);
    out := out[CyberSecurityEngineer := sec];
    forall r: Role ensures out[r] == scores[r] + RoleSignal(s, r) {
      match r
      case AIMLEngineer => assert out[r] == ai;
      case SoftwareEngineer => assert out[r] == se;
      case WebDeveloper => assert out[r] == web;
      case DataAnalyst => assert out[r] == da;
      case DevOpsEngineer => assert out[r] == ops;
      case CyberSecurityEngineer => assert out[r] == sec;
    }
  }

  /** `best_role = max(scores, key=scores.get)`, then the fallback. */
  method FinalSelection(scores: map<Role, int>) returns (career: string)
    requires Complete(scores)
    ensures career == Select(scores)
    ensures career in RoleNames
  {
    SelectSpec(scores);
    var best := FirstMax(ScoreList(scores));
    var bestRole := Roles[best];
    if scores[bestRole] <= 0 {
      career := "Software Engineer";
    } else {
      career := RoleName(bestRole);
    }
  }

  /** The common signals followed by the role rules leave exactly the final scores of `Scores(s)`. */
  lemma ScoresExt(s: StudentRecord, common: map<Role, int>, scores: map<Role, int>)
    requires Uniform(common, CommonSignal(s))
    requires Complete(scores)
    requires forall r: Role :: scores[r] == common[r] + RoleSignal(s, r)
    ensures scores == Scores(s)
  {
    var target := Scores(s);
    forall r: Role ensures scores[r] == target[r] {
      assert r in Roles by { assert r == Roles[IndexOf(r)]; }
    }
    assert scores.Keys == target.Keys;
  }

  /** The common signal of a student, condition by condition. */
  lemma CommonSignalUnfold(s: StudentRecord, english: int)
    requires english == EnglishScore(s.english)
    ensures CommonSignal(s) == Pts(s.cgpa >= 8.0, 1) + Pts(s.cgpa >= 8.5, 1) + Pts(s.backlogs > 0.0 || s.reappears > 0.0, -1)
                               + Pts(s.backlogs >= 3.0 || s.reappears >= 3.0, -1) + Pts(s.attendance < 70.0, -1)
                               + Pts(english >= 70, 1) + Pts(s.aptitude >= 70.0, 1)
  {
  }

  /** `generate_career(row)`. */
  method GenerateCareer(s: StudentRecord) returns (career: string)
    ensures career == CareerOf(s)
    ensures career in RoleNames
  {
    var english := EnglishScore(s.english);
    var frameworks := FrameworkTokens(s.frameworks);
    var progProf := Lower(s.programming);

    var scores := map[AIMLEngineer := 0, SoftwareEngineer := 0, WebDeveloper := 0,
                      DataAnalyst := 0, DevOpsEngineer := 0, CyberSecurityEngineer := 0];
    CompleteIfAllRoles(scores);
    scores := CommonSignals(scores, s.cgpa >= 8.0, s.cgpa >= 8.5, s.backlogs > 0.0 || s.reappears > 0.0,
                            s.backlogs >= 3.0 || s.reappears >= 3.0, s.attendance < 70.0, english >= 70,
                            s.aptitude >= 70.0);
    CommonSignalUnfold(s, english);
    ghost var common := scores;
    scores := RoleRules(s, frameworks, progProf, scores);
    ScoresExt(s, common, scores);
    career := FinalSelection(scores);
  }

}

/** Conflict-free names for files kept beside one of the same name. */
module FileNaming {
  import opened Options
  import opened Sets

  const CANDIDATES := 100

  // ---------------------------------------------------------------- decimal numbers

  function Digit(d: nat): char
    requires d < 10
  {
    "0123456789"[d]
  }

  /** The decimal form that "%d" prints. */
  function Decimal(n: nat): (s: string)
    ensures |s| >= 1
  {
    if n < 10 then [Digit(n)] else Decimal(n / 10) + [Digit(n % 10)]
  }

  lemma DigitInjective(c: nat, d: nat)
    requires c < 10 && d < 10 && Digit(c) == Digit(d)
    ensures c == d
  {
    assert forall i, j :: 0 <= i < j < 10 ==> "0123456789"[i] != "0123456789"[j];
  }

  lemma {:induction false} DecimalInjective(m: nat, n: nat)
    requires Decimal(m) == Decimal(n)
    ensures m == n
    decreases m + n
  {
    var s, t := Decimal(m), Decimal(n);
    assert s[|s| - 1] == t[|t| - 1];
    DigitInjective(m % 10, n % 10);
    if m >= 10 && n >= 10 {
      assert s[..|s| - 1] == Decimal(m / 10) && t[..|t| - 1] == Decimal(n / 10);
      DecimalInjective(m / 10, n / 10);
    } else {
      assert |s| == |t|;
      assert m >= 10 ==> |s| >= 2;
      assert n >= 10 ==> |t| >= 2;
    }
  }

  /** The number a string of digits stands for. */
  function Value(s: string): int {
    if s == "" then 0 else 10 * Value(s[..|s| - 1]) + (s[|s| - 1] as int - '0' as int)
  }

  lemma DigitIs(d: nat)
    requires d < 10
    ensures Digit(d) as int == '0' as int + d
  {
    assert "0123456789"[0] == '0' && "0123456789"[1] == '1' && "0123456789"[2] == '2' && "0123456789"[3] == '3';
    assert "0123456789"[4] == '4' && "0123456789"[5] == '5' && "0123456789"[6] == '6' && "0123456789"[7] == '7';
    assert "0123456789"[8] == '8' && "0123456789"[9] == '9';
  }

  /** A number is printed in digits that stand for it, without a leading zero. */
  lemma {:induction false} DecimalIs(n: nat)
    ensures Value(Decimal(n)) == n
    ensures forall k :: 0 <= k < |Decimal(n)| ==> '0' <= Decimal(n)[k] <= '9'
    ensures n > 0 ==> Decimal(n)[0] != '0'
  {
    var s := Decimal(n);
    DigitIs(n % 10);
    if n >= 10 {
      DecimalIs(n / 10);
      assert s[..|s| - 1] == Decimal(n / 10);
    } else {
      assert s[..0] == "";
    }
  }

  // ---------------------------------------------------------------- names

  /** filepath.Ext, looking at the first i characters: from the last dot after the last slash, or nothing. */
  function ExtFrom(name: string, i: nat): (ext: string)
    requires i <= |name|
    ensures |ext| <= |name| && ext == name[|name| - |ext|..]
  {
    if i == 0 || name[i - 1] == '/' then ""
    else if name[i - 1] == '.' then name[i - 1..]
    else ExtFrom(name, i - 1)
  }

  function Ext(name: string): (ext: string)
    ensures |ext| <= |name| && ext == name[|name| - |ext|..]
  {
    ExtFrom(name, |name|)
  }

  /** strings.TrimSuffix with the extension. */
  function Base(name: string): string {
    name[..|name| - |Ext(name)|]
  }

  lemma BasePlusExt(name: string)
    ensures Base(name) + Ext(name) == name
  {}

  lemma {:induction false} ExtFromIs(name: string, i: nat)
    requires i <= |name| && forall k :: i <= k < |name| ==> name[k] != '.' && name[k] != '/'
    ensures var ext := ExtFrom(name, i);
            if ext == "" then forall k :: 0 <= k < |name| && name[k] == '.' ==> Slashed(name, k)
            else ext[0] == '.' && forall k :: 0 < k < |ext| ==> ext[k] != '.' && ext[k] != '/'
    decreases i
  {
    if i > 0 && name[i - 1] == '/' {
      assert forall k :: 0 <= k < |name| && name[k] == '.' ==> k < i - 1;
    } else if i > 0 && name[i - 1] == '.' {
      var ext := name[i - 1..];
      assert forall k :: 0 < k < |ext| ==> ext[k] == name[i - 1 + k];
    } else if i > 0 {
      ExtFromIs(name, i - 1);
    }
  }

  /** There is a slash after the k-th character. */
  predicate Slashed(name: string, k: nat) {
    exists j :: k < j < |name| && name[j] == '/'
  }

  /** The extension is the part from the last dot on, when no slash follows it; without such a dot it is empty. */
  lemma ExtIs(name: string)
    ensures var ext := Ext(name);
            && ext == name[|name| - |ext|..]
            && if ext == "" then forall k :: 0 <= k < |name| && name[k] == '.' ==> Slashed(name, k)
               else ext[0] == '.' && forall k :: 0 < k < |ext| ==> ext[k] != '.' && ext[k] != '/'
  {
    ExtFromIs(name, |name|);
  }

  /** Numbering keeps the extension: the k-th name is the base, a blank, k in parentheses, and the extension. */
  lemma CandidateIs(name: string, k: nat)
    ensures Candidate(name, 0) == name
    ensures k > 0 ==> exists base, digits ::
              && base + Ext(name) == name && Value(digits) == k
              && Candidate(name, k) == base + " (" + digits + ")" + Ext(name)
  {
    if k > 0 {
      DecimalIs(k);
      BasePlusExt(name);
      assert Base(name) + Ext(name) == name && Candidate(name, k) == Base(name) + " (" + Decimal(k) + ")" + Ext(name);
    }
  }

  function Between(name: string, middle: string): string {
    Base(name) + " (" + middle + ")" + Ext(name)
  }

  /** The k-th name tried: the name itself, then "base (1)ext", "base (2)ext" and so on. */
  function Candidate(name: string, k: nat): string {
    if k == 0 then name else Between(name, Decimal(k))
  }

  lemma BetweenInjective(name: string, s: string, t: string)
    requires Between(name, s) == Between(name, t)
    ensures s == t
  {
    var a, b := Between(name, s), Between(name, t);
    var n := |Base(name)| + 2;
    assert |s| == |t|;
    assert a[n..n + |s|] == s;
    assert b[n..n + |t|] == t;
  }

  /** No two names tried are the same. */
  lemma CandidatesDistinct(name: string, j: nat, k: nat)
    requires Candidate(name, j) == Candidate(name, k)
    ensures j == k
  {
    BasePlusExt(name);
    if j > 0 && k > 0 {
      BetweenInjective(name, Decimal(j), Decimal(k));
      DecimalInjective(j, k);
    } else {
      assert |Between(name, Decimal(j + k))| > |name|;
    }
  }

  // ---------------------------------------------------------------- the pigeonhole

  function FirstCandidates(name: string, n: nat): set<string> {
    if n == 0 then {} else FirstCandidates(name, n - 1) + {Candidate(name, n - 1)}
  }

  lemma {:induction false} CandidateOf(name: string, n: nat, s: string) returns (k: nat)
    requires s in FirstCandidates(name, n)
    ensures k < n && s == Candidate(name, k)
  {
    if s == Candidate(name, n - 1) {
      k := n - 1;
    } else {
      k := CandidateOf(name, n - 1, s);
    }
  }

  lemma {:induction false} FirstCandidatesSize(name: string, n: nat)
    ensures |FirstCandidates(name, n)| == n
  {
    if n > 0 {
      FirstCandidatesSize(name, n - 1);
      if Candidate(name, n - 1) in FirstCandidates(name, n - 1) {
        var k := CandidateOf(name, n - 1, Candidate(name, n - 1));
        CandidatesDistinct(name, n - 1, k);
      }
    }
  }

  /** Among more candidates than there are taken names, one is free. */
  lemma FreeCandidate(name: string, taken: set<string>, n: nat) returns (k: nat)
    requires |taken| < n
    ensures k < n && Candidate(name, k) !in taken
  {
    FirstCandidatesSize(name, n);
    if FirstCandidates(name, n) <= taken {
      SubsetSize(FirstCandidates(name, n), taken);
    }
    var s :| s in FirstCandidates(name, n) && s !in taken;
    k := CandidateOf(name, n, s);
  }

  // ---------------------------------------------------------------- the name that is chosen

  /** The first free candidate from the k-th on; past the last one, a random form. */
  function Resolve(name: string, taken: set<string>, random: string, k: nat): string
    decreases CANDIDATES - k
  {
    if k >= CANDIDATES then Between(name, random)
    else if Candidate(name, k) !in taken then Candidate(name, k)
    else Resolve(name, taken, random, k + 1)
  }

  predicate FirstFree(name: string, taken: set<string>, k: nat) {
    k < CANDIDATES && Candidate(name, k) !in taken && forall j: nat :: j < k ==> Candidate(name, j) in taken
  }

  /** If any candidate is free, the first free one is chosen. */
  lemma {:induction false} ResolvesTo(name: string, taken: set<string>, random: string, k: nat, from: nat)
    requires FirstFree(name, taken, k) && from <= k
    ensures Resolve(name, taken, random, from) == Candidate(name, k)
    decreases k - from
  {
    if from < k {
      ResolvesTo(name, taken, random, k, from + 1);
    }
  }

  lemma {:induction false} FirstOf(name: string, taken: set<string>, free: nat, from: nat) returns (k: nat)
    requires from <= free < CANDIDATES && Candidate(name, free) !in taken
    requires forall j: nat :: j < from ==> Candidate(name, j) in taken
    ensures FirstFree(name, taken, k) && k <= free
    decreases free - from
  {
    if Candidate(name, from) !in taken {
      k := from;
    } else {
      k := FirstOf(name, taken, free, from + 1);
    }
  }

  /**
   With fewer than 100 active names the random form is never used: the result is the original or one of its first
   99 numbered forms, it is free, and every form before it is taken.
   */
  lemma AlwaysFreshNumbered(name: string, taken: set<string>, random: string)
    requires |taken| < 100
    ensures exists k: nat :: FirstFree(name, taken, k) && Resolve(name, taken, random, 0) == Candidate(name, k)
    ensures Resolve(name, taken, random, 0) !in taken
  {
    var free := FreeCandidate(name, taken, CANDIDATES);
    var k := FirstOf(name, taken, free, 0);
    ResolvesTo(name, taken, random, k, 0);
  }

  lemma {:induction false} AllTakenRandom(name: string, taken: set<string>, random: string, from: nat)
    requires forall k: nat :: from <= k < CANDIDATES ==> Candidate(name, k) in taken
    ensures Resolve(name, taken, random, from) == Between(name, random)
    decreases CANDIDATES - from
  {
    if from < CANDIDATES {
      AllTakenRandom(name, taken, random, from + 1);
    }
  }

  lemma ShortDecimal(k: nat)
    requires k < CANDIDATES
    ensures |Decimal(k)| <= 2
  {
    assert Decimal(k) == if k < 10 then [Digit(k)] else Decimal(k / 10) + [Digit(k % 10)];
  }

  /** The random form, six characters long, is no candidate. */
  lemma RandomFormIsOther(name: string, random: string, k: nat)
    requires |random| == 6 && k < CANDIDATES
    ensures Between(name, random) != Candidate(name, k)
  {
    BasePlusExt(name);
    ShortDecimal(k);
    if k > 0 && Between(name, random) == Candidate(name, k) {
      BetweenInjective(name, random, Decimal(k));
    }
  }

  /** The random form is used exactly when all 100 candidates are taken; it may then clash, as it is not looked up. */
  lemma RandomFormIff(name: string, taken: set<string>, random: string)
    requires |random| == 6
    ensures Resolve(name, taken, random, 0) == Between(name, random)
      <==> forall k: nat :: k < 100 ==> Candidate(name, k) in taken
  {
    if forall k: nat :: k < CANDIDATES ==> Candidate(name, k) in taken {
      AllTakenRandom(name, taken, random, 0);
    } else {
      var free: nat :| free < CANDIDATES && Candidate(name, free) !in taken;
      var k := FirstOf(name, taken, free, 0);
      ResolvesTo(name, taken, random, k, 0);
      RandomFormIsOther(name, random, k);
    }
  }

  // ---------------------------------------------------------------- the repository and the service

  datatype FileRow = FileRow(user: string, name: string, folder: Option<string>, deleted: bool, created: int)

  /** An empty folder id stands for the root. */
  function FolderColumn(folder: Option<string>): Option<string> {
    if folder == Some("") then None else folder
  }

  predicate Holds(row: FileRow, user: string, folder: Option<string>) {
    row.user == user && row.folder == FolderColumn(folder) && !row.deleted
  }

  /** The names of the user's files in the folder that are not deleted. */
  function ActiveNames(rows: map<nat, FileRow>, user: string, folder: Option<string>): set<string> {
    set id | id in rows && Holds(rows[id], user, folder) :: rows[id].name
  }

  predicate Matches(rows: map<nat, FileRow>, id: nat, user: string, name: string, folder: Option<string>) {
    id in rows && Holds(rows[id], user, folder) && rows[id].name == name
  }

  lemma MatchIffActive(rows: map<nat, FileRow>, user: string, name: string, folder: Option<string>)
    ensures name in ActiveNames(rows, user, folder) <==> exists id :: Matches(rows, id, user, name, folder)
  {
    if id :| Matches(rows, id, user, name, folder) {
      assert rows[id].name in ActiveNames(rows, user, folder);
    }
    if name in ActiveNames(rows, user, folder) {
      var id :| id in rows && Holds(rows[id], user, folder) && rows[id].name == name;
      assert Matches(rows, id, user, name, folder);
    }
  }

  /** A name is taken by a file of the user in the folder that is not deleted; NULL and "" both stand for the root. */
  lemma TakenIff(rows: map<nat, FileRow>, user: string, name: string, folder: Option<string>)
    ensures name in ActiveNames(rows, user, folder)
      <==> exists id :: && id in rows && rows[id].user == user && rows[id].name == name && !rows[id].deleted
                        && if folder == None || folder == Some("") then rows[id].folder == None
                           else rows[id].folder == folder
  {
    if name in ActiveNames(rows, user, folder) {
      var id :| id in rows && Holds(rows[id], user, folder) && rows[id].name == name;
      assert rows[id].user == user;
    }
  }

  class FileService {
    var rows: map<nat, FileRow>

    constructor (rows: map<nat, FileRow>)
      ensures this.rows == rows
    {
      this.rows := rows;
    }

    /** The newest match, any of them when two are equally new. */
    method FindByFilenameAndFolder(user: string, name: string, folder: Option<string>) returns (found: Option<nat>)
      ensures found.Some? <==> name in ActiveNames(rows, user, folder)
      ensures found.Some? ==> Matches(rows, found.value, user, name, folder)
      ensures found.Some?
        ==> forall id :: Matches(rows, id, user, name, folder) ==> rows[id].created <= rows[found.value].created
    {
      found := None;
      var left := rows.Keys;
      while left != {}
        invariant left <= rows.Keys
        invariant found.Some? ==> Matches(rows, found.value, user, name, folder)
        invariant forall id :: Matches(rows, id, user, name, folder) && id !in left ==>
          found.Some? && rows[id].created <= rows[found.value].created
        decreases |left|
      {
        var id :| id in left;
        if Matches(rows, id, user, name, folder) && (found.None? || rows[found.value].created < rows[id].created) {
          found := Some(id);
        }
        left := left - {id};
      }
      MatchIffActive(rows, user, name, folder);
    }

    method ResolveNonConflictingFilename(user: string, filename: string, folder: Option<string>, random: string)
      returns (name: string)
      ensures name == Resolve(filename, ActiveNames(rows, user, folder), random, 0)
    {
      var ext := Ext(filename);
      var base := filename[..|filename| - |ext|];
      var candidate := filename;
      var counter: nat := 1;
      while true
        invariant 1 <= counter <= CANDIDATES
        invariant candidate == Candidate(filename, counter - 1)
        invariant Resolve(filename, ActiveNames(rows, user, folder), random, counter - 1)
               == Resolve(filename, ActiveNames(rows, user, folder), random, 0)
        decreases CANDIDATES - counter
      {
        var existing := FindByFilenameAndFolder(user, candidate, folder);
        if existing.None? {
          return candidate;
        }
        candidate := base + " (" + Decimal(counter) + ")" + ext;
        counter := counter + 1;
        if counter > CANDIDATES {
          return base + " (" + random + ")" + ext;
        }
      }
    }
  }
}

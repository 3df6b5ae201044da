/** Migration files: their versions, the directory scan and the order. */
module Migrations {
  import opened Contract
  import opened MigrationProtocol

  // ---------- migrationVersion ----------

  const MAX_INT64 := 0x7fff_ffff_ffff_ffff

  /** The text before the first underscore, if there is one. */
  function Prefix(name: string): Option<string>
  {
    if name == "" then None
    else if name[0] == '_' then Some("")
    else match Prefix(name[1..]) case Some(p) => Some([name[0]] + p) case None => None
  }

  predicate IsDigit(c: char)
  {
    '0' <= c <= '9'
  }

  predicate AllDigits(s: string)
  {
    s != "" && forall i :: 0 <= i < |s| ==> IsDigit(s[i])
  }

  function Decimal(s: string): int
    requires forall i :: 0 <= i < |s| ==> IsDigit(s[i])
  {
    if s == "" then 0 else 10 * Decimal(s[..|s| - 1]) + (s[|s| - 1] as int - '0' as int)
  }

  /** strconv.ParseInt(s, 10, 64): an optional sign, digits, in range. */
  function ParseInt64(s: string): Option<int>
  {
    if s == "" then None
    else
      var signed := s[0] == '+' || s[0] == '-';
      var digits := if signed then s[1..] else s;
      if !AllDigits(digits) then None
      else
        var value := if s[0] == '-' then -Decimal(digits) else Decimal(digits);
        if -MAX_INT64 - 1 <= value <= MAX_INT64 then Some(value) else None
  }

  function MigrationVersion(name: string): Option<int>
  {
    match Prefix(name)
    case None => None
    case Some(p) =>
      match ParseInt64(p)
      case None => None
      case Some(v) => if v < 1 then None else Some(v)
  }

  // ---------- sort.Strings ----------

  predicate Less(a: string, b: string)
  {
    if b == "" then false
    else if a == "" then true
    else a[0] < b[0] || (a[0] == b[0] && Less(a[1..], b[1..]))
  }

  lemma {:induction false} LessTotal(a: string, b: string)
    ensures Less(a, b) || a == b || Less(b, a)
  {
    if a != "" && b != "" && a[0] == b[0] {
      LessTotal(a[1..], b[1..]);
      assert a == [a[0]] + a[1..] && b == [b[0]] + b[1..];
    }
  }

  lemma {:induction false} LessTransitive(a: string, b: string, c: string)
    requires !Less(b, a) && !Less(c, b)
    ensures !Less(c, a)
  {
    if a != "" && b != "" && c != "" && a[0] == b[0] == c[0] {
      LessTransitive(a[1..], b[1..], c[1..]);
    }
  }

  predicate Sorted(files: seq<string>)
  {
    forall i, j :: 0 <= i < j < |files| ==> !Less(files[j], files[i])
  }

  /** Puts a name into its place. */
  method InsertName(files: seq<string>, name: string) returns (out: seq<string>)
    requires Sorted(files)
    ensures Sorted(out) && multiset(out) == multiset(files) + multiset{name}
  {
    hide Less;
    var i := |files|;
    while i > 0 && Less(name, files[i - 1])
      invariant 0 <= i <= |files|
      invariant forall j :: i <= j < |files| ==> Less(name, files[j])
    {
      i := i - 1;
    }
    out := files[..i] + [name] + files[i..];
    assert files == files[..i] + files[i..];
    forall j | 0 <= j < i
      ensures !Less(name, files[j])
    {
      if j < i - 1 {
        LessTransitive(files[j], files[i - 1], name);
      }
    }
    forall j | i <= j < |files|
      ensures !Less(files[j], name)
    {
      LessAsymmetric(name, files[j]);
    }
  }

  method SortNames(files: seq<string>) returns (out: seq<string>)
    ensures Sorted(out) && multiset(out) == multiset(files)
  {
    out := [];
    assert files[..0] == [];
    for i := 0 to |files|
      invariant Sorted(out) && multiset(out) == multiset(files[..i])
    {
      assert files[..i + 1] == files[..i] + [files[i]];
      out := InsertName(out, files[i]);
    }
    assert files[..|files|] == files;
  }

  lemma {:induction false} LessAsymmetric(a: string, b: string)
    requires Less(a, b)
    ensures !Less(b, a)
  {
    if a != "" && a[0] == b[0] {
      LessAsymmetric(a[1..], b[1..]);
    }
  }

  // ---------- the directory scan ----------

  datatype DirEntry = DirEntry(name: string, isDir: bool)

  datatype Scan = Files(files: seq<string>) | BadName(name: string) | SharedVersion(a: string, b: string) | NoFiles

  predicate HasSuffix(s: string, suffix: string)
  {
    |suffix| <= |s| && s[|s| - |suffix|..] == suffix
  }

  predicate IsMigration(e: DirEntry)
  {
    !e.isDir && HasSuffix(e.name, ".up.sql")
  }

  /** The migration file names of a listing, in listing order. */
  function Migrations(entries: seq<DirEntry>): seq<string>
  {
    if entries == [] then []
    else Migrations(entries[..|entries| - 1])
         + if IsMigration(entries[|entries| - 1]) then [entries[|entries| - 1].name] else []
  }

  /** Every name has a version and no two share one. */
  ghost predicate Versioned(names: seq<string>)
  {
    && (forall i :: 0 <= i < |names| ==> MigrationVersion(names[i]).Some?)
    && (forall i, j :: 0 <= i < j < |names| ==> MigrationVersion(names[i]) != MigrationVersion(names[j]))
  }

  /** RunMigrations up to the sort: the scan succeeds exactly when there are
      migration files and all their versions are valid and distinct; it then
      yields exactly these files, sorted by name. */
  method ScanDirectory(entries: seq<DirEntry>) returns (r: Scan)
    ensures r.Files? <==> Migrations(entries) != [] && Versioned(Migrations(entries))
    ensures r.Files? ==> Sorted(r.files) && multiset(r.files) == multiset(Migrations(entries)) && Versioned(r.files)
    ensures r.BadName? ==> r.name in Migrations(entries) && MigrationVersion(r.name).None?
    ensures r.NoFiles? ==> Migrations(entries) == []
  {
    hide MigrationVersion, HasSuffix, Sorted, Versioned, VersionsOf;
    assert Versioned([]) && VersionsOf([]) == {} by { NoNames(); }
    var files: seq<string> := [];
    var versions: map<int, string> := map[];
    for i := 0 to |entries|
      invariant files == Migrations(entries[..i]) && Versioned(files)
      invariant versions.Keys == VersionsOf(files)
    {
      var entry := entries[i];
      assert entries[..i + 1][..i] == entries[..i] && entries[..i + 1][i] == entry;
      if IsMigration(entry) {
        var version := MigrationVersion(entry.name);
        VersionsNext(files, entry.name);
        EarlierFiles(entries, i + 1);
        PrefixVersioned(files + [entry.name], Migrations(entries));
        if version.None? {
          assert (files + [entry.name])[|files|] == entry.name;
          return BadName(entry.name);
        }
        if version.value in versions {
          return SharedVersion(versions[version.value], entry.name);
        }
        versions := versions[version.value := entry.name];
        files := files + [entry.name];
      }
    }
    assert entries[..|entries|] == entries;
    if files == [] {
      return NoFiles;
    }
    var sorted := SortNames(files);
    PermutedVersioned(files, sorted);
    r := Files(sorted);
  }

  function VersionsOf(names: seq<string>): set<int>
  {
    set i | 0 <= i < |names| && MigrationVersion(names[i]).Some? :: MigrationVersion(names[i]).value
  }

  lemma NoNames()
    ensures Versioned([]) && VersionsOf([]) == {}
  {
  }

  lemma VersionsNext(names: seq<string>, name: string)
    ensures MigrationVersion(name).Some? ==>
              VersionsOf(names + [name]) == VersionsOf(names) + {MigrationVersion(name).value}
    ensures Versioned(names + [name]) <==>
              Versioned(names) && MigrationVersion(name).Some? && MigrationVersion(name).value !in VersionsOf(names)
  {
    hide MigrationVersion;
    var all := names + [name];
    assert forall i :: 0 <= i < |names| ==> all[i] == names[i];
    assert all[|names|] == name;
    if MigrationVersion(name).Some? {
      forall v | v in VersionsOf(names)
        ensures v in VersionsOf(all)
      {
        var i :| 0 <= i < |names| && MigrationVersion(names[i]).Some? && MigrationVersion(names[i]).value == v;
        assert MigrationVersion(all[i]) == Some(v);
      }
      assert MigrationVersion(all[|names|]).value in VersionsOf(all);
    }
  }

  lemma {:induction false} EarlierFiles(entries: seq<DirEntry>, n: nat)
    requires n <= |entries|
    ensures Migrations(entries[..n]) <= Migrations(entries)
    decreases |entries|
  {
    hide IsMigration;
    if n == |entries| {
      assert entries[..n] == entries;
    } else {
      var init := entries[..|entries| - 1];
      assert init[..n] == entries[..n];
      EarlierFiles(init, n);
    }
  }

  lemma PrefixVersioned(a: seq<string>, b: seq<string>)
    requires a <= b
    ensures Versioned(b) ==> Versioned(a)
  {
  }

  lemma PermutedVersioned(a: seq<string>, b: seq<string>)
    requires Versioned(a) && multiset(a) == multiset(b)
    ensures Versioned(b)
  {
    hide MigrationVersion;
    forall i | 0 <= i < |b|
      ensures MigrationVersion(b[i]).Some?
    {
      assert b[i] in multiset(b);
      assert b[i] in a;
    }
    forall i, j | 0 <= i < j < |b|
      ensures MigrationVersion(b[i]) != MigrationVersion(b[j])
    {
      AtMostOnce(a, b[i]);
      assert b == b[..j] + b[j..] && b[i] in b[..j];
      assert b[j] in b[j..];
      assert b[i] in multiset(b) && b[j] in multiset(b);
      var x :| 0 <= x < |a| && a[x] == b[i];
      var y :| 0 <= y < |a| && a[y] == b[j];
    }
  }

  /** What the instances migrate by: the sorted files with their statements. */
  function PlanOf(files: seq<string>, statements: string -> seq<string>): (plan: seq<Migration>)
    requires forall i :: 0 <= i < |files| ==> MigrationVersion(files[i]).Some?
  {
    seq(|files|, k requires 0 <= k < |files| => Migration(MigrationVersion(files[k]).value, statements(files[k])))
  }

  lemma ScannedPlan(files: seq<string>, statements: string -> seq<string>)
    requires Versioned(files)
    ensures Distinct(PlanOf(files, statements))
  {
    hide MigrationVersion;
    var plan := PlanOf(files, statements);
    forall i, j | 0 <= i < j < |plan|
      ensures plan[i].version != plan[j].version
    {
      assert MigrationVersion(files[i]) != MigrationVersion(files[j]);
    }
  }

  /** A directory entry is taken exactly when it is a file with this ending. */
  lemma MigrationExactly(e: DirEntry)
    ensures IsMigration(e) <==> !e.isDir && exists stem: string :: e.name == stem + ".up.sql"
    ensures forall stem: string :: e.name == stem + ".down.sql" ==> !IsMigration(e)
  {
    var n := |e.name| - 7;
    if HasSuffix(e.name, ".up.sql") {
      assert e.name == e.name[..n] + ".up.sql";
    }
    forall stem: string | e.name == stem + ".up.sql"
      ensures HasSuffix(e.name, ".up.sql")
    {
      assert e.name[n..] == ".up.sql";
    }
    forall stem: string | e.name == stem + ".down.sql"
      ensures !HasSuffix(e.name, ".up.sql")
    {
      assert e.name[n] == ".down.sql"[2] && e.name[n..][0] == e.name[n];
    }
  }

  /** The scan keeps exactly the names of these entries. */
  lemma {:induction false} MigrationsAre(entries: seq<DirEntry>, name: string)
    ensures name in Migrations(entries) <==>
              exists i :: 0 <= i < |entries| && entries[i].name == name && IsMigration(entries[i])
  {
    hide IsMigration;
    if entries != [] {
      var n := |entries| - 1;
      MigrationsAre(entries[..n], name);
      assert forall i :: 0 <= i < n ==> entries[..n][i] == entries[i];
    }
  }

  // ---------- numeric order ----------

  function Pow10(n: nat): int
  {
    if n == 0 then 1 else 10 * Pow10(n - 1)
  }

  lemma {:induction false} DecimalBound(s: string)
    requires forall i :: 0 <= i < |s| ==> IsDigit(s[i])
    ensures 0 <= Decimal(s) < Pow10(|s|)
  {
    if s != "" {
      DecimalBound(s[..|s| - 1]);
    }
  }

  /** The leading digit counts for its power of ten. */
  lemma {:induction false} DecimalLeading(s: string)
    requires s != "" && forall i :: 0 <= i < |s| ==> IsDigit(s[i])
    ensures Decimal(s) == (s[0] as int - '0' as int) * Pow10(|s| - 1) + Decimal(s[1..])
  {
    var n := |s| - 1;
    if n > 0 {
      DecimalLeading(s[..n]);
      assert s[..n][1..] == s[1..n] && s[1..][..n - 1] == s[1..n] && s[1..][n - 1] == s[n];
      assert Decimal(s[1..]) == 10 * Decimal(s[1..n]) + (s[n] as int - '0' as int);
      LiftTen(s[0] as int - '0' as int, Pow10(n - 1));
    } else {
      assert s[..0] == "" && s[1..] == "";
    }
  }

  lemma LiftTen(d: int, p: int)
    ensures 10 * (d * p) == d * (10 * p)
  {
  }

  /** Equal width and digits only: name order and number order are the same. */
  lemma {:induction false} DigitsCompare(a: string, b: string)
    requires |a| == |b|
    requires forall i :: 0 <= i < |a| ==> IsDigit(a[i]) && IsDigit(b[i])
    ensures Less(a, b) <==> Decimal(a) < Decimal(b)
  {
    if a != "" {
      DecimalLeading(a);
      DecimalLeading(b);
      DecimalBound(a[1..]);
      DecimalBound(b[1..]);
      var x, y, p := a[0] as int - '0' as int, b[0] as int - '0' as int, Pow10(|a| - 1);
      if x == y {
        DigitsCompare(a[1..], b[1..]);
      } else if x < y {
        Dominates(x, y, p, Decimal(a[1..]), Decimal(b[1..]));
      } else {
        Dominates(y, x, p, Decimal(b[1..]), Decimal(a[1..]));
      }
    }
  }

  lemma Dominates(x: int, y: int, p: int, u: int, v: int)
    requires x < y && 0 <= u < p && 0 <= v
    ensures x * p + u < y * p + v
  {
    assert (x + 1) * p <= y * p;
  }

  /** Names that differ within the compared part compare as these parts do. */
  lemma {:induction false} LessByPrefix(a: string, b: string, n: nat)
    requires n <= |a| && n <= |b| && a[..n] != b[..n]
    ensures Less(a, b) <==> Less(a[..n], b[..n])
    decreases n
  {
    if a[0] == b[0] {
      assert a[..n][1..] == a[1..][..n - 1] && b[..n][1..] == b[1..][..n - 1];
      assert a[..n] == [a[0]] + a[1..][..n - 1] && b[..n] == [b[0]] + b[1..][..n - 1];
      LessByPrefix(a[1..], b[1..], n - 1);
    }
  }

  lemma {:induction false} PrefixOf(name: string)
    requires Prefix(name).Some?
    ensures |Prefix(name).value| <= |name| && Prefix(name).value == name[..|Prefix(name).value|]
  {
    if name[0] != '_' {
      PrefixOf(name[1..]);
      var n := |Prefix(name[1..]).value|;
      assert name[..n + 1] == [name[0]] + name[1..][..n];
    }
  }

  /** The length of the text before the underscore. */
  function Width(name: string): nat
  {
    match Prefix(name) case Some(p) => |p| case None => 0
  }

  /** The version carries a plus sign, which ParseInt accepts. */
  predicate Signed(name: string)
  {
    name != "" && name[0] == '+'
  }

  /** Where the digits of a version start. */
  function From(name: string): nat
  {
    if Signed(name) then 1 else 0
  }

  lemma VersionDigits(name: string)
    requires MigrationVersion(name).Some?
    ensures From(name) < Width(name) <= |name|
    ensures AllDigits(name[From(name)..Width(name)])
    ensures MigrationVersion(name).value == Decimal(name[From(name)..Width(name)])
  {
    PrefixOf(name);
    var p := Prefix(name).value;
    assert p == name[..Width(name)] && p != "";
    if p[0] == '+' || p[0] == '-' {
      assert AllDigits(p[1..]) && p[1..] == name[1..Width(name)];
      DecimalBound(p[1..]);
    } else {
      assert AllDigits(p) && p == name[0..Width(name)];
    }
  }

  /** A name has a version exactly when it is decimal digits, perhaps after a
      plus sign, up to an underscore, with a value from 1 to the largest int64;
      the version is that value. */
  lemma VersionExactly(name: string, v: int)
    ensures MigrationVersion(name) == Some(v) <==>
              exists sign, digits, rest: string :: Spells(name, sign, digits, rest, v)
  {
    hide MigrationVersion, Spells;
    if MigrationVersion(name) == Some(v) {
      var sign, digits, rest := VersionSpelled(name, v);
    }
    forall sign, digits, rest: string | Spells(name, sign, digits, rest, v)
      ensures MigrationVersion(name) == Some(v)
    {
      SpelledVersion(name, sign, digits, rest, v);
    }
  }

  lemma VersionSpelled(name: string, v: int) returns (sign: string, digits: string, rest: string)
    requires MigrationVersion(name) == Some(v)
    ensures Spells(name, sign, digits, rest, v)
  {
    VersionDigits(name);
    VersionRange(name);
    assert Prefix(name).Some?;
    PrefixEnds(name);
    hide MigrationVersion, Decimal, Width, Prefix;
    var k, w := From(name), Width(name);
    SplitName(name, k, w);
    sign, digits, rest := name[..k], name[k..w], name[w + 1..];
    assert sign == "" || sign == "+";
  }

  lemma SplitName(name: string, k: nat, w: nat)
    requires k <= w < |name| && name[w] == '_'
    ensures name == name[..k] + name[k..w] + "_" + name[w + 1..]
  {
  }

  lemma SpelledVersion(name: string, sign: string, digits: string, rest: string, v: int)
    requires Spells(name, sign, digits, rest, v)
    ensures MigrationVersion(name) == Some(v)
  {
    PrefixAt(sign + digits, rest);
    assert name == (sign + digits) + "_" + rest;
    hide Prefix, Decimal;
    var p := sign + digits;
    assert IsDigit(digits[0]);
    if sign == "+" {
      assert p[0] == '+' && p[1..] == digits;
    } else {
      assert p == digits;
    }
    assert ParseInt64(p) == Some(v);
  }

  predicate Spells(name: string, sign: string, digits: string, rest: string, v: int)
  {
    && name == sign + digits + "_" + rest && (sign == "" || sign == "+")
    && AllDigits(digits) && Decimal(digits) == v && 1 <= v <= 0x7fff_ffff_ffff_ffff
  }

  lemma VersionRange(name: string)
    requires MigrationVersion(name).Some?
    ensures 1 <= MigrationVersion(name).value <= MAX_INT64
  {
  }

  lemma {:induction false} PrefixEnds(name: string)
    requires Prefix(name).Some?
    ensures Width(name) < |name| && name[Width(name)] == '_'
  {
    if name[0] != '_' {
      PrefixEnds(name[1..]);
    }
  }

  /** A pair such as 000001_create_message_storage: the file that goes up is
      taken, as version 1, and the one that goes down is not. */
  lemma ShippedMigration(topic: string)
    ensures IsMigration(DirEntry("000001_" + topic + ".up.sql", false))
    ensures MigrationVersion("000001_" + topic + ".up.sql") == Some(1)
    ensures !IsMigration(DirEntry("000001_" + topic + ".down.sql", false))
  {
    var stem, rest := "000001_" + topic, topic + ".up.sql";
    MigrationExactly(DirEntry(stem + ".up.sql", false));
    MigrationExactly(DirEntry(stem + ".down.sql", false));
    SixDigitOne();
    hide IsMigration, MigrationVersion, Decimal;
    assert stem + ".up.sql" == "" + "000001" + "_" + rest;
    SpelledVersion(stem + ".up.sql", "", "000001", rest, 1);
  }

  lemma {:induction false} Zeros(s: string)
    requires forall i :: 0 <= i < |s| ==> s[i] == '0'
    ensures Decimal(s) == 0
  {
    if s != "" {
      Zeros(s[..|s| - 1]);
    }
  }

  lemma SixDigitOne()
    ensures AllDigits("000001") && Decimal("000001") == 1
  {
    var s := "000001";
    assert |s| == 6 && s[5] == '1' && forall i :: 0 <= i < 5 ==> s[i] == '0';
    Zeros(s[..5]);
    assert Decimal(s) == 10 * Decimal(s[..5]) + 1;
  }

  /** Byte order: the first difference decides, or the shorter text comes first. */
  lemma {:induction false} LessExactly(a: string, b: string)
    ensures Less(a, b) <==>
              exists i :: 0 <= i <= |a| && i < |b| && a[..i] == b[..i] && (i == |a| || a[i] < b[i])
  {
    if a == "" {
      assert b != "" ==> a[..0] == b[..0];
    } else if b != "" {
      LessExactly(a[1..], b[1..]);
      if Less(a, b) && a[0] < b[0] {
        assert a[..0] == b[..0];
      } else if Less(a, b) {
        var i :| 0 <= i <= |a[1..]| && i < |b[1..]| && a[1..][..i] == b[1..][..i] && (i == |a[1..]| || a[1..][i] < b[1..][i]);
        assert a[..i + 1] == [a[0]] + a[1..][..i] && b[..i + 1] == [b[0]] + b[1..][..i];
        assert a[..i + 1] == b[..i + 1] && (i + 1 == |a| || a[i + 1] < b[i + 1]);
      }
      if i :| 0 <= i <= |a| && i < |b| && a[..i] == b[..i] && (i == |a| || a[i] < b[i]) {
        if i > 0 {
          assert a[0] == a[..i][0] == b[..i][0] == b[0];
          assert a[1..][..i - 1] == a[..i][1..] && b[1..][..i - 1] == b[..i][1..];
          assert a[1..][..i - 1] == b[1..][..i - 1] && (i - 1 == |a[1..]| || a[1..][i - 1] < b[1..][i - 1]);
        }
      }
    }
  }

  /** How two names with versions of one width compare: by version, unless
      just one of them carries a plus sign; that one then always comes first. */
  lemma NameOrder(a: string, b: string)
    requires MigrationVersion(a).Some? && MigrationVersion(b).Some? && MigrationVersion(a) != MigrationVersion(b)
    requires Width(a) == Width(b)
    ensures Less(a, b) <==> if Signed(a) == Signed(b) then MigrationVersion(a).value < MigrationVersion(b).value
                            else Signed(a)
  {
    hide Decimal, MigrationVersion, Width;
    VersionDigits(a);
    VersionDigits(b);
    if Signed(a) == Signed(b) {
      var k, n := From(a), Width(a);
      assert a[..n][k..] == a[k..n] && b[..n][k..] == b[k..n];
      DigitsCompare(a[k..n], b[k..n]);
      LessByPrefix(a, b, n);
    }
  }

  /** With version prefixes of one width, all signed or none, the files run in
      numeric order of their versions. */
  lemma SortedIsNumeric(files: seq<string>, i: nat, j: nat)
    requires Sorted(files) && Versioned(files) && i < j < |files|
    requires Width(files[i]) == Width(files[j]) && Signed(files[i]) == Signed(files[j])
    ensures MigrationVersion(files[i]).value < MigrationVersion(files[j]).value
  {
    hide Less, MigrationVersion, Width;
    NameOrder(files[j], files[i]);
  }

  lemma {:induction false} PrefixAt(p: string, rest: string)
    requires '_' !in p
    ensures Prefix(p + "_" + rest) == Some(p)
  {
    var name := p + "_" + rest;
    if p == "" {
      assert name[0] == '_';
    } else {
      assert name[1..] == p[1..] + "_" + rest && name[0] == p[0];
      PrefixAt(p[1..], rest);
      assert p == [p[0]] + p[1..];
    }
  }

  lemma SingleDigit(c: char)
    requires IsDigit(c)
    ensures ParseInt64([c]) == Some(c as int - '0' as int) == ParseInt64(['+', c])
  {
    assert [c][..0] == "" && ['+', c][1..] == [c];
    assert Decimal([c]) == c as int - '0' as int;
  }

  lemma TwoDigits(c: char, d: char)
    requires IsDigit(c) && IsDigit(d)
    ensures ParseInt64([c, d]) == Some(10 * (c as int - '0' as int) + d as int - '0' as int)
  {
    assert [c, d][..1] == [c] && [c][..0] == "";
    assert Decimal([c]) == c as int - '0' as int;
  }

  /** Neither condition can be dropped: widths that differ, or a sign on one
      of two, put a higher version before a lower one. */
  lemma NameOrderNotNumeric(a: string, b: string)
    ensures Less("10_" + a, "9_" + b)
    ensures MigrationVersion("10_" + a) == Some(10) && MigrationVersion("9_" + b) == Some(9)
    ensures Less("+9_" + a, "05_" + b)
    ensures MigrationVersion("+9_" + a) == Some(9) && MigrationVersion("05_" + b) == Some(5)
  {
    assert "10_" + a == "10" + "_" + a && "9_" + b == "9" + "_" + b;
    assert "+9_" + a == "+9" + "_" + a && "05_" + b == "05" + "_" + b;
    PrefixAt("10", a);
    PrefixAt("9", b);
    PrefixAt("+9", a);
    PrefixAt("05", b);
    SingleDigit('9');
    TwoDigits('1', '0');
    TwoDigits('0', '5');
    hide Prefix, ParseInt64, Decimal;
  }
}

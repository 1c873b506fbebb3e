/** Merging two user snapshots by stable id while keeping display names unique. */
module UserMerge {
  import opened Wrappers

  /** A user record; `rest` stands for every field the merge copies without looking at it. */
  datatype User = User(id: string, username: string, usernameSource: string, usernameReconciliation: string, rest: int)

  const SUFFIXES := 10_000

  // Name normalisation, character by character.

  predicate IsSpace(c: char) {
    || c == ' ' || '\t' <= c <= '\r' || c == '\U{A0}' || c == '\U{1680}' || '\U{2000}' <= c <= '\U{200A}'
    || c == '\U{2028}' || c == '\U{2029}' || c == '\U{202F}' || c == '\U{205F}' || c == '\U{3000}' || c == '\U{FEFF}'
  }

  predicate IsDigit(c: char) {
    '0' <= c <= '9'
  }

  predicate IsSafe(c: char) {
    'a' <= c <= 'z' || IsDigit(c) || c == '.' || c == '_'
  }

  function TrimStart(s: string): string {
    if s != [] && IsSpace(s[0]) then TrimStart(s[1..]) else s
  }

  function TrimEnd(s: string): string {
    if s != [] && IsSpace(s[|s| - 1]) then TrimEnd(s[..|s| - 1]) else s
  }

  function Trim(s: string): string {
    TrimEnd(TrimStart(s))
  }

  function StripAt(s: string): string {
    if s != [] && s[0] == '@' then StripAt(s[1..]) else s
  }

  function LowerChar(c: char): char {
    if 'A' <= c <= 'Z' then (c as int + 32) as char else c
  }

  function Lower(s: string): string {
    seq(|s|, i requires 0 <= i < |s| => LowerChar(s[i]))
  }

  function NormalizeUsername(s: string): string {
    Lower(StripAt(Trim(s)))
  }

  function KeepSafe(s: string): (r: string)
    ensures forall c <- r :: IsSafe(c)
  {
    if s == [] then [] else (if IsSafe(s[0]) then [s[0]] else []) + KeepSafe(s[1..])
  }

  function DropSuffix(s: string): string {
    var n := |s| - 5;
    if n >= 0 && s[n] == '#' && forall c <- s[n + 1..] :: IsDigit(c) then s[..n] else s
  }

  function NormalUsernameBase(value: string): (r: string)
    ensures 3 <= |r| <= 20 && forall c <- r :: IsSafe(c)
  {
    var base := KeepSafe(DropSuffix(NormalizeUsername(value)));
    var cut := if |base| > 20 then base[..20] else base;
    if |cut| < 3 then "user" else cut
  }

  function Digit(n: nat): char
    requires n < 10
  {
    ('0' as int + n) as char
  }

  /** base#0042 */
  function Candidate(base: string, n: nat): string
    requires n < SUFFIXES
  {
    base + ['#', Digit(n / 10 / 10 / 10), Digit(n / 10 / 10 % 10), Digit(n / 10 % 10), Digit(n % 10)]
  }

  /** The suffix tried at a given offset from the seed. */
  function Suffix(seed: nat, offset: nat): (n: nat)
    ensures n < SUFFIXES
  {
    (seed + offset) % SUFFIXES
  }

  function Probe(base: string, seed: nat, used: set<string>, offset: nat): Option<string>
    requires offset <= SUFFIXES
    decreases SUFFIXES - offset, used
  {
    if offset == SUFFIXES then None
    else
      var candidate := Candidate(base, Suffix(seed, offset));
      if NormalizeUsername(candidate) !in used then Some(candidate) else Probe(base, seed, used, offset + 1)
  }

  /** None is the thrown "no temporary username is available". */
  function TemporaryUsername(value: string, seed: nat, used: set<string>): Option<string> {
    Probe(NormalUsernameBase(value), seed, used, 0)
  }

  /** Output, seen ids and used names, as the two loops accumulate them. */
  datatype Progress = Progress(output: seq<User>, ids: set<string>, names: set<string>)

  predicate Skipped(id: string, ids: set<string>, deleted: set<string>) {
    id == "" || id in deleted || id in ids
  }

  function Absorb(p: Progress, raw: User, deleted: set<string>, tag: string, seed: string -> nat): Option<Progress> {
    var id := Trim(raw.id);
    if Skipped(id, p.ids, deleted) then Some(p)
    else
      var key := NormalizeUsername(raw.username);
      var chosen := if key != "" && key in p.names then TemporaryUsername(raw.username, seed(id), p.names)
                    else Some(raw.username);
      if chosen.None? then None
      else
        var user := if key != "" && key in p.names
                    then raw.(username := chosen.value, usernameSource := "beatgaler", usernameReconciliation := tag)
                    else raw;
        Some(Progress(p.output + [user], p.ids + {id},
                      if user.username != "" then p.names + {NormalizeUsername(user.username)} else p.names))
  }

  function AbsorbAll(p: Progress, raws: seq<User>, deleted: set<string>, tag: string,
                     seed: string -> nat): Option<Progress> {
    if raws == [] then Some(p)
    else
      var before := AbsorbAll(p, raws[..|raws| - 1], deleted, tag, seed);
      if before.None? then None else Absorb(before.value, raws[|raws| - 1], deleted, tag, seed)
  }

  const NOTHING := Progress([], {}, {})

  function Preserve(next: seq<User>, previous: seq<User>, deleted: set<string>, seed: string -> nat): Option<Progress> {
    var first := AbsorbAll(NOTHING, next, deleted, "snapshot_collision", seed);
    if first.None? then None else AbsorbAll(first.value, previous, deleted, "snapshot_preserved", seed)
  }

  // What every accumulator state satisfies.

  ghost predicate DistinctIds(users: seq<User>) {
    forall i, j :: 0 <= i < j < |users| ==> Trim(users[i].id) != Trim(users[j].id)
  }

  ghost predicate DistinctNames(users: seq<User>) {
    forall i, j :: 0 <= i < j < |users| && NormalizeUsername(users[i].username) != "" ==>
      NormalizeUsername(users[i].username) != NormalizeUsername(users[j].username)
  }

  ghost function IdsOf(users: seq<User>): set<string> {
    set u | u in users :: Trim(u.id)
  }

  ghost function NamesOf(users: seq<User>): set<string> {
    set u | u in users && u.username != "" :: NormalizeUsername(u.username)
  }

  ghost predicate Sound(p: Progress, deleted: set<string>) {
    && p.ids == IdsOf(p.output) && p.names == NamesOf(p.output)
    && DistinctIds(p.output) && DistinctNames(p.output)
    && "" !in p.ids && p.ids !! deleted
    && |p.names| <= |p.ids|
  }

  lemma {:induction false} PlainTrim(s: string)
    requires forall c <- s :: !IsSpace(c)
    ensures Trim(s) == s
  {
    assert TrimStart(s) == s;
    if s != [] {
      assert s[|s| - 1] in s;
    }
  }

  lemma CandidateIsNormal(base: string, n: nat)
    requires n < SUFFIXES && base != "" && forall c <- base :: IsSafe(c)
    ensures NormalizeUsername(Candidate(base, n)) == Candidate(base, n)
    ensures Candidate(base, n) != ""
  {
    var name := Candidate(base, n);
    assert forall c <- name :: IsSafe(c) || c == '#';
    PlainTrim(name);
    assert name[0] == base[0] && name[0] in base;
    assert StripAt(name) == name;
    forall i | 0 <= i < |name|
      ensures LowerChar(name[i]) == name[i]
    {
      assert name[i] in name;
    }
    assert Lower(name) == name;
  }

  lemma CandidatesDiffer(base: string, m: nat, n: nat)
    requires m < SUFFIXES && n < SUFFIXES && Candidate(base, m) == Candidate(base, n)
    ensures m == n
  {
    var k := |base|;
    var a, b := Candidate(base, m), Candidate(base, n);
    assert a[k + 1] == b[k + 1] && a[k + 2] == b[k + 2] && a[k + 3] == b[k + 3] && a[k + 4] == b[k + 4];
  }

  /** A found name is the candidate itself and is not taken; nothing found means every suffix is taken. */
  lemma {:induction false} ProbeResult(base: string, seed: nat, used: set<string>, offset: nat)
    requires offset <= SUFFIXES && base != "" && forall c <- base :: IsSafe(c)
    ensures var r := Probe(base, seed, used, offset);
            && (r.Some? ==> r.value != "" && NormalizeUsername(r.value) == r.value && r.value !in used)
            && (r.None? ==> forall k :: offset <= k < SUFFIXES ==> Candidate(base, Suffix(seed, k)) in used)
    decreases SUFFIXES - offset
  {
    if offset < SUFFIXES {
      CandidateIsNormal(base, Suffix(seed, offset));
      ProbeResult(base, seed, used, offset + 1);
    }
  }

  lemma {:induction false} ManyCandidates(base: string, n: nat, used: set<string>)
    requires n <= SUFFIXES && forall k :: 0 <= k < n ==> Candidate(base, k) in used
    ensures |used| >= n
  {
    if n > 0 {
      var last := Candidate(base, n - 1);
      forall k | 0 <= k < n - 1
        ensures Candidate(base, k) in used - {last}
      {
        if Candidate(base, k) == last {
          CandidatesDiffer(base, k, n - 1);
        }
      }
      ManyCandidates(base, n - 1, used - {last});
    }
  }

  lemma EverySuffixIsTried(seed: nat, k: nat)
    requires k < SUFFIXES
    ensures exists offset: nat :: offset < SUFFIXES && Suffix(seed, offset) == k
  {
    var start := seed % SUFFIXES;
    var offset := if k >= start then k - start else k - start + SUFFIXES;
    assert seed + offset == SUFFIXES * (seed / SUFFIXES) + k || seed + offset == SUFFIXES * (seed / SUFFIXES + 1) + k;
    assert Suffix(seed, offset) == k;
  }

  /** Fewer than ten thousand used names always leave a free suffix, whatever the seed. */
  lemma SuffixExists(value: string, seed: nat, used: set<string>)
    requires |used| < SUFFIXES
    ensures TemporaryUsername(value, seed, used).Some?
  {
    var base := NormalUsernameBase(value);
    ProbeResult(base, seed, used, 0);
    if Probe(base, seed, used, 0).None? {
      forall k | 0 <= k < SUFFIXES
        ensures Candidate(base, k) in used
      {
        EverySuffixIsTried(seed, k);
      }
      ManyCandidates(base, SUFFIXES, used);
    }
  }

  lemma IdsGrow(users: seq<User>, user: User)
    ensures IdsOf(users + [user]) == IdsOf(users) + {Trim(user.id)}
  {
    hide Trim;
  }

  lemma NamesGrow(users: seq<User>, user: User)
    ensures NamesOf(users + [user])
         == NamesOf(users) + if user.username != "" then {NormalizeUsername(user.username)} else {}
  {
    hide NormalizeUsername;
  }

  lemma IdsStayDistinct(users: seq<User>, user: User)
    requires DistinctIds(users) && Trim(user.id) !in IdsOf(users)
    ensures DistinctIds(users + [user])
  {
    hide Trim;
    forall i | 0 <= i < |users|
      ensures Trim(users[i].id) in IdsOf(users)
    {
      assert users[i] in users;
    }
  }

  lemma NamesStayDistinct(users: seq<User>, user: User)
    requires DistinctNames(users)
    requires NormalizeUsername(user.username) != "" ==> NormalizeUsername(user.username) !in NamesOf(users)
    ensures DistinctNames(users + [user])
  {
    hide NormalizeUsername;
    forall i | 0 <= i < |users| && NormalizeUsername(users[i].username) != ""
      ensures NormalizeUsername(users[i].username) in NamesOf(users)
    {
      NamedUserIsListed(users, i);
    }
  }

  lemma AddingUser(p: Progress, user: User, deleted: set<string>)
    requires Sound(p, deleted) && !Skipped(Trim(user.id), p.ids, deleted)
    requires NormalizeUsername(user.username) != "" ==> NormalizeUsername(user.username) !in p.names
    ensures Sound(Progress(p.output + [user], p.ids + {Trim(user.id)},
                           if user.username != "" then p.names + {NormalizeUsername(user.username)} else p.names),
                              deleted)
  {
    hide NormalizeUsername, Trim, IdsOf, NamesOf, DistinctIds, DistinctNames;
    IdsGrow(p.output, user);
    NamesGrow(p.output, user);
    IdsStayDistinct(p.output, user);
    NamesStayDistinct(p.output, user);
  }

  lemma {:induction false} AbsorbKeepsSound(p: Progress, raw: User, deleted: set<string>, tag: string,
                                            seed: string -> nat)
    requires Sound(p, deleted) && Absorb(p, raw, deleted, tag, seed).Some?
    ensures Sound(Absorb(p, raw, deleted, tag, seed).value, deleted)
  {
    var id := Trim(raw.id);
    if !Skipped(id, p.ids, deleted) {
      ProbeResult(NormalUsernameBase(raw.username), seed(id), p.names, 0);
      var user := Absorb(p, raw, deleted, tag, seed).value.output[|p.output|];
      AddingUser(p, user, deleted);
    }
  }

  lemma NamedUserIsListed(users: seq<User>, i: nat)
    requires i < |users| && NormalizeUsername(users[i].username) != ""
    ensures NormalizeUsername(users[i].username) in NamesOf(users)
  {
    assert NormalizeUsername("") == "";
    assert users[i] in users;
  }

  /** The ids of a list that take a place in the merge. */
  ghost function Surviving(ids: set<string>, deleted: set<string>): set<string> {
    ids - deleted - {""}
  }

  lemma SurvivingOfBoth(a: set<string>, b: set<string>, deleted: set<string>)
    ensures Surviving(a + b, deleted) == Surviving(a, deleted) + Surviving(b, deleted)
  {
  }

  lemma AbsorbAddsId(p: Progress, raw: User, deleted: set<string>, tag: string, seed: string -> nat)
    requires Absorb(p, raw, deleted, tag, seed).Some? && "" !in p.ids && p.ids !! deleted
    ensures Absorb(p, raw, deleted, tag, seed).value.ids == p.ids + Surviving({Trim(raw.id)}, deleted)
  {
    hide NormalizeUsername, Trim, TemporaryUsername;
  }

  lemma SoundIds(p: Progress, deleted: set<string>)
    requires Sound(p, deleted)
    ensures "" !in p.ids && p.ids !! deleted
  {
    hide DistinctIds, DistinctNames;
  }

  lemma SurvivingOfNone(p: Progress, deleted: set<string>)
    ensures p.ids + Surviving(IdsOf([]), deleted) == p.ids
  {
    assert IdsOf([]) == {};
  }

  lemma SurvivingOfNext(ids: set<string>, before: seq<User>, raw: User, deleted: set<string>)
    ensures ids + Surviving(IdsOf(before + [raw]), deleted)
         == (ids + Surviving(IdsOf(before), deleted)) + Surviving({Trim(raw.id)}, deleted)
  {
    hide Trim, Surviving, IdsOf;
    IdsGrow(before, raw);
    SurvivingOfBoth(IdsOf(before), {Trim(raw.id)}, deleted);
  }

  lemma {:induction false} AbsorbAllIsSound(p: Progress, raws: seq<User>, deleted: set<string>, tag: string,
                                            seed: string -> nat)
    requires Sound(p, deleted) && AbsorbAll(p, raws, deleted, tag, seed).Some?
    ensures var q := AbsorbAll(p, raws, deleted, tag, seed).value;
            Sound(q, deleted) && q.ids == p.ids + Surviving(IdsOf(raws), deleted)
  {
    hide NormalizeUsername, Trim, Absorb, Sound, Surviving, IdsOf;
    if raws == [] {
      SurvivingOfNone(p, deleted);
    } else {
      var before, raw := raws[..|raws| - 1], raws[|raws| - 1];
      AbsorbAllIsSound(p, before, deleted, tag, seed);
      var q := AbsorbAll(p, before, deleted, tag, seed).value;
      SoundIds(q, deleted);
      AbsorbKeepsSound(q, raw, deleted, tag, seed);
      AbsorbAddsId(q, raw, deleted, tag, seed);
      assert raws == before + [raw];
      SurvivingOfNext(p.ids, before, raw, deleted);
    }
  }

  /** Every id of either list that was not deleted appears exactly once, and non-empty names are pairwise distinct. */
  lemma PreserveKeepsEveryUserOnce(next: seq<User>, previous: seq<User>, deleted: set<string>, seed: string -> nat)
    requires Preserve(next, previous, deleted, seed).Some?
    ensures var users := Preserve(next, previous, deleted, seed).value.output;
            && IdsOf(users) == Surviving(IdsOf(next + previous), deleted)
            && DistinctIds(users) && DistinctNames(users)
  {
    hide NormalizeUsername, Trim, Absorb, AbsorbAll, Surviving, DistinctIds, DistinctNames, IdsOf, NamesOf;
    NothingIsSound(deleted);
    AbsorbAllIsSound(NOTHING, next, deleted, "snapshot_collision", seed);
    var first := AbsorbAll(NOTHING, next, deleted, "snapshot_collision", seed).value;
    AbsorbAllIsSound(first, previous, deleted, "snapshot_preserved", seed);
    IdsOfBoth(next, previous);
    SurvivingOfBoth(IdsOf(next), IdsOf(previous), deleted);
  }

  // Names that differ only in their dress.

  /** A name as somebody may have typed it: the same name with blanks around it and @ signs before it. */
  ghost function Dressed(before: nat, signs: nat, name: string, after: nat): string {
    seq(before, _ => ' ') + seq(signs, _ => '@') + name + seq(after, _ => ' ')
  }

  ghost predicate Bare(name: string) {
    name != "" && name[0] != '@' && !IsSpace(name[0]) && !IsSpace(name[|name| - 1])
  }

  /** The same letters, but for capitals. */
  ghost predicate SameLetters(a: string, b: string) {
    && |a| == |b|
    && forall k | 0 <= k < |a| ::
         || a[k] == b[k]
         || ('A' <= a[k] <= 'Z' && b[k] as int == a[k] as int + 32)
         || ('A' <= b[k] <= 'Z' && a[k] as int == b[k] as int + 32)
  }

  lemma {:induction false} BlanksBefore(n: nat, s: string)
    requires s != "" && !IsSpace(s[0])
    ensures TrimStart(seq(n, _ => ' ') + s) == s
  {
    var t := seq(n, _ => ' ') + s;
    if n == 0 {
      assert t == s;
    } else {
      assert t[1..] == seq(n - 1, _ => ' ') + s;
      BlanksBefore(n - 1, s);
    }
  }

  lemma {:induction false} BlanksAfter(n: nat, s: string)
    requires s != "" && !IsSpace(s[|s| - 1])
    ensures TrimEnd(s + seq(n, _ => ' ')) == s
  {
    var t := s + seq(n, _ => ' ');
    if n == 0 {
      assert t == s;
    } else {
      assert t[..|t| - 1] == s + seq(n - 1, _ => ' ');
      BlanksAfter(n - 1, s);
    }
  }

  lemma {:induction false} SignsBefore(n: nat, s: string)
    requires s != "" && s[0] != '@'
    ensures StripAt(seq(n, _ => '@') + s) == s
  {
    var t := seq(n, _ => '@') + s;
    if n == 0 {
      assert t == s;
    } else {
      assert t[1..] == seq(n - 1, _ => '@') + s;
      SignsBefore(n - 1, s);
    }
  }

  lemma DressIsTakenOff(before: nat, signs: nat, name: string, after: nat)
    requires Bare(name)
    ensures NormalizeUsername(Dressed(before, signs, name, after)) == Lower(name)
  {
    hide TrimStart, TrimEnd, StripAt, Lower;
    var signed := seq(signs, _ => '@') + name;
    var inner := signed + seq(after, _ => ' ');
    assert Dressed(before, signs, name, after) == seq(before, _ => ' ') + inner;
    assert signed[0] == if signs > 0 then '@' else name[0];
    assert signed[|signed| - 1] == name[|name| - 1];
    BlanksBefore(before, inner);
    BlanksAfter(after, signed);
    SignsBefore(signs, name);
  }

  lemma SameLettersLower(a: string, b: string)
    requires SameLetters(a, b)
    ensures Lower(a) == Lower(b)
  {
  }

  /** Of two names that differ only in capitals, leading @ signs and blanks around them, the merge never keeps both. */
  lemma NamesStayApart(next: seq<User>, previous: seq<User>, deleted: set<string>, seed: string -> nat, i: nat, j: nat,
                       a: (nat, nat, string, nat), b: (nat, nat, string, nat))
    requires Preserve(next, previous, deleted, seed).Some? && Bare(a.2) && Bare(b.2)
    requires i < j < |Preserve(next, previous, deleted, seed).value.output|
    requires var users := Preserve(next, previous, deleted, seed).value.output;
             && users[i].username == Dressed(a.0, a.1, a.2, a.3) && users[j].username == Dressed(b.0, b.1, b.2, b.3)
    ensures !SameLetters(a.2, b.2)
  {
    hide NormalizeUsername, Preserve, IdsOf, Surviving, DistinctIds, Dressed, Bare, SameLetters, Lower;
    PreserveKeepsEveryUserOnce(next, previous, deleted, seed);
    DressIsTakenOff(a.0, a.1, a.2, a.3);
    DressIsTakenOff(b.0, b.1, b.2, b.3);
    BareIsNamed(a.2);
    if SameLetters(a.2, b.2) {
      SameLettersLower(a.2, b.2);
      assert false;
    }
  }

  lemma BareIsNamed(name: string)
    requires Bare(name)
    ensures Lower(name) != ""
  {
    assert |Lower(name)| == |name|;
  }

  // What a taken name is replaced by.

  /** A letter, digit, dot or underscore. */
  ghost predicate WordChar(c: char) {
    'a' <= c <= 'z' || 'A' <= c <= 'Z' || '0' <= c <= '9' || c == '.' || c == '_'
  }

  /** Nothing, or # and four digits. */
  ghost predicate Numbered(tail: string) {
    tail == "" || (|tail| == 5 && tail[0] == '#' && forall k | 1 <= k < 5 :: '0' <= tail[k] <= '9')
  }

  lemma {:induction false} AllSafe(s: string)
    requires forall c <- s :: IsSafe(c)
    ensures KeepSafe(s) == s
  {
    if s != "" {
      AllSafe(s[1..]);
      assert s == [s[0]] + s[1..];
    }
  }

  /** Characters a name may not have are left out, all others stay in their order. */
  lemma {:induction false} KeptExactly(a: string, c: char, b: string)
    ensures KeepSafe(a + [c] + b)
         == KeepSafe(a) + (if 'a' <= c <= 'z' || '0' <= c <= '9' || c == '.' || c == '_' then [c] else []) + KeepSafe(b)
  {
    if a == "" {
      assert (a + [c] + b)[1..] == b && (a + [c] + b)[0] == c;
    } else {
      assert (a + [c] + b)[1..] == a[1..] + [c] + b && (a + [c] + b)[0] == a[0];
      KeptExactly(a[1..], c, b);
    }
  }

  lemma NumberIsDropped(stem: string, tail: string)
    requires (forall c <- stem :: IsSafe(c)) && Numbered(tail)
    ensures DropSuffix(stem + tail) == stem
  {
    var s := stem + tail;
    var n := |s| - 5;
    if tail == "" {
      assert s == stem;
      assert n >= 0 ==> s[n] in stem;
    } else {
      assert s[..n] == stem && s[n] == '#';
      assert s[n + 1..] == tail[1..];
    }
  }

  lemma LowerOfBoth(a: string, b: string)
    ensures Lower(a + b) == Lower(a) + Lower(b)
  {
  }

  /** The new name starts with the old one, however that was dressed, in small letters, without the number an earlier
      replacement gave it, cut to twenty characters; a name of less than three gives way to "user". */
  lemma BaseExactly(before: nat, signs: nat, stem: string, tail: string, after: nat)
    requires (forall c <- stem :: WordChar(c)) && Numbered(tail) && Bare(stem + tail)
    ensures NormalUsernameBase(Dressed(before, signs, stem + tail, after))
         == if |stem| < 3 then "user" else Lower(if |stem| > 20 then stem[..20] else stem)
  {
    hide NormalizeUsername, Dressed, KeepSafe, DropSuffix;
    DressIsTakenOff(before, signs, stem + tail, after);
    LowerOfBoth(stem, tail);
    assert Lower(tail) == tail;
    forall c <- Lower(stem) ensures IsSafe(c) {
      var k :| 0 <= k < |stem| && Lower(stem)[k] == c;
      assert stem[k] in stem;
    }
    NumberIsDropped(Lower(stem), tail);
    AllSafe(Lower(stem));
    assert |stem| > 20 ==> Lower(stem)[..20] == Lower(stem[..20]);
  }

  ghost predicate FreeAt(base: string, seed: nat, used: set<string>, offset: nat) {
    NormalizeUsername(Candidate(base, (seed + offset) % 10_000)) !in used
  }

  /** A replacement is that start, # and a number of four digits: the first from the seed on which nobody uses. */
  lemma {:induction false} FirstFreeNumber(base: string, seed: nat, used: set<string>, offset: nat) returns (k: nat)
    requires offset <= SUFFIXES && Probe(base, seed, used, offset).Some?
    ensures offset <= k < 10_000 && FreeAt(base, seed, used, k)
    ensures forall j | offset <= j < k :: !FreeAt(base, seed, used, j)
    ensures var n, name := (seed + k) % 10_000, Probe(base, seed, used, offset).value;
            && |name| == |base| + 5 && name[..|base|] == base && name[|base|] == '#'
            && n == 1000 * (name[|base| + 1] as int - '0' as int) + 100 * (name[|base| + 2] as int - '0' as int)
                    + 10 * (name[|base| + 3] as int - '0' as int) + (name[|base| + 4] as int - '0' as int)
    decreases SUFFIXES - offset
  {
    hide NormalizeUsername;
    k := offset;
    if !FreeAt(base, seed, used, offset) {
      k := FirstFreeNumber(base, seed, used, offset + 1);
    }
  }

  lemma NothingIsSound(deleted: set<string>)
    ensures Sound(NOTHING, deleted)
  {
  }

  lemma IdsOfBoth(a: seq<User>, b: seq<User>)
    ensures IdsOf(a + b) == IdsOf(a) + IdsOf(b)
  {
    hide Trim;
  }

  lemma AbsorbSucceeds(p: Progress, raw: User, deleted: set<string>, tag: string, seed: string -> nat, all: set<string>)
    requires Sound(p, deleted) && p.ids <= all && |all| <= SUFFIXES && Surviving({Trim(raw.id)}, deleted) <= all
    ensures Absorb(p, raw, deleted, tag, seed).Some?
  {
    hide Trim, NormalizeUsername, TemporaryUsername, IdsOf, NamesOf, DistinctIds, DistinctNames;
    var id := Trim(raw.id);
    if !Skipped(id, p.ids, deleted) {
      assert id in Surviving({id}, deleted);
      SubsetIsSmaller(p.ids + {id}, all);
      SuffixExists(raw.username, seed(id), p.names);
    }
  }

  lemma {:induction false} AbsorbAllSucceeds(p: Progress, raws: seq<User>, deleted: set<string>, tag: string,
                                             seed: string -> nat, all: set<string>)
    requires Sound(p, deleted) && p.ids <= all && Surviving(IdsOf(raws), deleted) <= all && |all| <= SUFFIXES
    ensures AbsorbAll(p, raws, deleted, tag, seed).Some?
  {
    if raws != [] {
      hide Trim, Absorb, Sound, Surviving, IdsOf;
      var before, raw := raws[..|raws| - 1], raws[|raws| - 1];
      assert raws == before + [raw];
      IdsGrow(before, raw);
      SurvivingOfBoth(IdsOf(before), {Trim(raw.id)}, deleted);
      AbsorbAllSucceeds(p, before, deleted, tag, seed, all);
      AbsorbAllIsSound(p, before, deleted, tag, seed);
      AbsorbSucceeds(AbsorbAll(p, before, deleted, tag, seed).value, raw, deleted, tag, seed, all);
    }
  }

  /** Ten thousand distinct surviving users never exhaust the suffixes, however often each is listed: the merge does not
      throw. */
  lemma PreserveSucceeds(next: seq<User>, previous: seq<User>, deleted: set<string>, seed: string -> nat)
    requires |Surviving(IdsOf(next + previous), deleted)| <= SUFFIXES
    ensures Preserve(next, previous, deleted, seed).Some?
  {
    hide Trim, AbsorbAll, NormalizeUsername, Surviving, IdsOf, NamesOf, DistinctIds, DistinctNames;
    var all := Surviving(IdsOf(next + previous), deleted);
    NothingIsSound(deleted);
    IdsOfBoth(next, previous);
    SurvivingOfBoth(IdsOf(next), IdsOf(previous), deleted);
    AbsorbAllSucceeds(NOTHING, next, deleted, "snapshot_collision", seed, all);
    AbsorbAllIsSound(NOTHING, next, deleted, "snapshot_collision", seed);
    AbsorbAllSucceeds(AbsorbAll(NOTHING, next, deleted, "snapshot_collision", seed).value, previous, deleted,
                      "snapshot_preserved", seed, all);
  }

  lemma LastUserIsNew(users: seq<User>)
    requires users != [] && DistinctIds(users) && DistinctNames(users)
    ensures var n := |users| - 1;
            var key := NormalizeUsername(users[n].username);
            && Trim(users[n].id) !in IdsOf(users[..n])
            && !(key != "" && key in NamesOf(users[..n]))
            && IdsOf(users) == IdsOf(users[..n]) + {Trim(users[n].id)}
            && NamesOf(users) == NamesOf(users[..n]) + if users[n].username != "" then {key} else {}
  {
    var n := |users| - 1;
    assert users == users[..n] + [users[n]];
  }

  lemma AbsorbNew(p: Progress, raw: User, deleted: set<string>, tag: string, seed: string -> nat)
    requires !Skipped(Trim(raw.id), p.ids, deleted)
    requires var key := NormalizeUsername(raw.username); !(key != "" && key in p.names)
    ensures Absorb(p, raw, deleted, tag, seed)
         == Some(Progress(p.output + [raw], p.ids + {Trim(raw.id)},
                          p.names + if raw.username != "" then {NormalizeUsername(raw.username)} else {}))
  {
    assert p.names + {} == p.names;
  }

  lemma {:induction false} AbsorbAllFixed(users: seq<User>, deleted: set<string>, tag: string, seed: string -> nat)
    requires DistinctIds(users) && DistinctNames(users) && IdsOf(users) !! deleted && "" !in IdsOf(users)
    ensures AbsorbAll(NOTHING, users, deleted, tag, seed) == Some(Progress(users, IdsOf(users), NamesOf(users)))
  {
    hide NormalizeUsername, Trim, Absorb;
    if users == [] {
      assert IdsOf(users) == {} && NamesOf(users) == {};
    } else {
      var n := |users| - 1;
      var before, last := users[..n], users[n];
      assert before + [last] == users;
      LastUserIsNew(users);
      AbsorbAllFixed(before, deleted, tag, seed);
      assert Trim(last.id) in IdsOf(users);
      AbsorbNew(Progress(before, IdsOf(before), NamesOf(before)), last, deleted, tag, seed);
    }
  }

  lemma {:induction false} KnownUsersAddNothing(p: Progress, raws: seq<User>, deleted: set<string>, tag: string,
                                                seed: string -> nat)
    requires IdsOf(raws) <= p.ids + deleted + {""}
    ensures AbsorbAll(p, raws, deleted, tag, seed) == Some(p)
  {
    if raws != [] {
      var before, raw := raws[..|raws| - 1], raws[|raws| - 1];
      assert raw in raws && Trim(raw.id) in IdsOf(raws);
      assert IdsOf(before) <= IdsOf(raws);
      KnownUsersAddNothing(p, before, deleted, tag, seed);
    }
  }

  /** Merging the result with the same previous users once more changes nothing. */
  lemma PreserveIsIdempotent(next: seq<User>, previous: seq<User>, deleted: set<string>, seed: string -> nat)
    requires Preserve(next, previous, deleted, seed).Some?
    ensures var users := Preserve(next, previous, deleted, seed).value.output;
            var again := Preserve(users, previous, deleted, seed);
            again.Some? && again.value.output == users
  {
    PreserveKeepsEveryUserOnce(next, previous, deleted, seed);
    var users := Preserve(next, previous, deleted, seed).value.output;
    AbsorbAllFixed(users, deleted, "snapshot_collision", seed);
    assert IdsOf(previous) <= IdsOf(next + previous);
    KnownUsersAddNothing(Progress(users, IdsOf(users), NamesOf(users)), previous, deleted, "snapshot_preserved", seed);
  }

  /** The user is the record itself; or an earlier user of the output already carries its name, and only the name is
      new, with a note of where it comes from. */
  ghost predicate KeptUnlessTaken(users: seq<User>, j: nat, raw: User, tag: string)
    requires j < |users|
  {
    || users[j] == raw
    || (&& users[j] == raw.(username := users[j].username, usernameSource := "beatgaler",
                            usernameReconciliation := tag)
        && NormalizeUsername(raw.username) != ""
        && exists i :: 0 <= i < j && NormalizeUsername(users[i].username) == NormalizeUsername(raw.username))
  }

  lemma AbsorbedUserIsKept(p: Progress, raw: User, deleted: set<string>, tag: string, seed: string -> nat)
    requires Sound(p, deleted) && Absorb(p, raw, deleted, tag, seed).Some? && !Skipped(Trim(raw.id), p.ids, deleted)
    ensures var users := Absorb(p, raw, deleted, tag, seed).value.output;
            p.output < users && KeptUnlessTaken(users, |p.output|, raw, tag)
  {
    hide NormalizeUsername, Trim, TemporaryUsername, DistinctIds, DistinctNames, IdsOf;
    var users, key := Absorb(p, raw, deleted, tag, seed).value.output, NormalizeUsername(raw.username);
    if key != "" && key in p.names {
      var u :| u in p.output && u.username != "" && NormalizeUsername(u.username) == key;
      var i :| 0 <= i < |p.output| && p.output[i] == u;
      assert NormalizeUsername(users[i].username) == key;
    }
  }

  lemma {:induction false} AbsorbAllKeepsFirst(p: Progress, raws: seq<User>, deleted: set<string>, tag: string,
                                               seed: string -> nat, k: nat)
    requires Sound(p, deleted) && AbsorbAll(p, raws, deleted, tag, seed).Some? && k < |raws|
    requires !Skipped(Trim(raws[k].id), p.ids + IdsOf(raws[..k]), deleted)
    ensures var users := AbsorbAll(p, raws, deleted, tag, seed).value.output;
            exists j :: |p.output| <= j < |users| && KeptUnlessTaken(users, j, raws[k], tag)
  {
    hide NormalizeUsername, Trim, TemporaryUsername, Sound, Absorb, KeptUnlessTaken, IdsOf;
    var n := |raws| - 1;
    var before := raws[..n];
    var q := AbsorbAll(p, before, deleted, tag, seed).value;
    var users := AbsorbAll(p, raws, deleted, tag, seed).value.output;
    AbsorbAllIsSound(p, before, deleted, tag, seed);
    PrefixGrows(p, before, deleted, tag, seed);
    if k < n {
      assert before[..k] == raws[..k];
      AbsorbAllKeepsFirst(p, before, deleted, tag, seed, k);
      var j :| |p.output| <= j < |q.output| && KeptUnlessTaken(q.output, j, raws[k], tag);
      AbsorbGrows(q, raws[n], deleted, tag, seed);
      KeptInLonger(q.output, users, j, raws[k], tag);
    } else {
      AbsorbedUserIsKept(q, raws[n], deleted, tag, seed);
    }
  }

  lemma KeptInLonger(users: seq<User>, longer: seq<User>, j: nat, raw: User, tag: string)
    requires j < |users| && users <= longer && KeptUnlessTaken(users, j, raw, tag)
    ensures KeptUnlessTaken(longer, j, raw, tag)
  {
    hide NormalizeUsername;
  }

  lemma AbsorbGrows(p: Progress, raw: User, deleted: set<string>, tag: string, seed: string -> nat)
    requires Absorb(p, raw, deleted, tag, seed).Some?
    ensures p.output <= Absorb(p, raw, deleted, tag, seed).value.output
  {
    hide NormalizeUsername, Trim, TemporaryUsername;
  }

  lemma {:induction false} PrefixGrows(p: Progress, raws: seq<User>, deleted: set<string>, tag: string,
                                       seed: string -> nat)
    requires AbsorbAll(p, raws, deleted, tag, seed).Some?
    ensures p.output <= AbsorbAll(p, raws, deleted, tag, seed).value.output
  {
    if raws != [] {
      PrefixGrows(p, raws[..|raws| - 1], deleted, tag, seed);
    }
  }

  /** The new snapshot wins: its first record of an id that was not deleted survives, renamed only when its name is
      already taken. */
  lemma NextSnapshotWins(next: seq<User>, previous: seq<User>, deleted: set<string>, seed: string -> nat, k: nat)
    requires Preserve(next, previous, deleted, seed).Some? && k < |next|
    requires Trim(next[k].id) != "" && Trim(next[k].id) !in deleted && Trim(next[k].id) !in IdsOf(next[..k])
    ensures var users := Preserve(next, previous, deleted, seed).value.output;
            exists j :: 0 <= j < |users| && KeptUnlessTaken(users, j, next[k], "snapshot_collision")
  {
    hide NormalizeUsername, Trim, Absorb, AbsorbAll, KeptUnlessTaken, IdsOf;
    NothingIsSound(deleted);
    var first := AbsorbAll(NOTHING, next, deleted, "snapshot_collision", seed).value;
    var users := Preserve(next, previous, deleted, seed).value.output;
    AbsorbAllKeepsFirst(NOTHING, next, deleted, "snapshot_collision", seed, k);
    PrefixGrows(first, previous, deleted, "snapshot_preserved", seed);
    var j :| 0 <= j < |first.output| && KeptUnlessTaken(first.output, j, next[k], "snapshot_collision");
    KeptInLonger(first.output, users, j, next[k], "snapshot_collision");
  }

  /** And so does the first previous record of an id that neither the new snapshot nor the deletions name. */
  lemma PreviousSnapshotIsKept(next: seq<User>, previous: seq<User>, deleted: set<string>, seed: string -> nat, k: nat)
    requires Preserve(next, previous, deleted, seed).Some? && k < |previous|
    requires Trim(previous[k].id) != "" && Trim(previous[k].id) !in deleted
    requires Trim(previous[k].id) !in IdsOf(next) && Trim(previous[k].id) !in IdsOf(previous[..k])
    ensures var users := Preserve(next, previous, deleted, seed).value.output;
            exists j :: 0 <= j < |users| && KeptUnlessTaken(users, j, previous[k], "snapshot_preserved")
  {
    hide NormalizeUsername, Trim, Absorb, AbsorbAll, KeptUnlessTaken, IdsOf, DistinctIds, DistinctNames;
    NothingIsSound(deleted);
    AbsorbAllIsSound(NOTHING, next, deleted, "snapshot_collision", seed);
    var first := AbsorbAll(NOTHING, next, deleted, "snapshot_collision", seed).value;
    AbsorbAllKeepsFirst(first, previous, deleted, "snapshot_preserved", seed, k);
  }

  // The loops of the source.

  method FindTemporaryUsername(value: string, seed: nat, used: set<string>) returns (r: Option<string>)
    ensures r == TemporaryUsername(value, seed, used)
    ensures |used| < SUFFIXES ==> r.Some? && NormalizeUsername(r.value) !in used
  {
    hide NormalizeUsername, NormalUsernameBase, Candidate, Suffix;
    if |used| < SUFFIXES {
      SuffixExists(value, seed, used);
    }
    var base := NormalUsernameBase(value);
    ProbeResult(base, seed, used, 0);
    for offset := 0 to SUFFIXES
      invariant TemporaryUsername(value, seed, used) == Probe(base, seed, used, offset)
    {
      var candidate := Candidate(base, Suffix(seed, offset));
      if NormalizeUsername(candidate) !in used {
        return Some(candidate);
      }
    }
    return None;
  }

  method PreserveUsersByStableId(next: seq<User>, previous: seq<User>, deleted: set<string>, seed: string -> nat)
    returns (r: Option<seq<User>>)
    ensures var p := Preserve(next, previous, deleted, seed); r == if p.Some? then Some(p.value.output) else None
    ensures |Surviving(IdsOf(next + previous), deleted)| <= SUFFIXES ==> r.Some?
    ensures r.Some? ==> IdsOf(r.value) == Surviving(IdsOf(next + previous), deleted)
                        && DistinctIds(r.value) && DistinctNames(r.value)
  {
    hide NormalizeUsername, Trim, TemporaryUsername, DistinctIds, DistinctNames, IdsOf, Surviving;
    if |Surviving(IdsOf(next + previous), deleted)| <= SUFFIXES {
      PreserveSucceeds(next, previous, deleted, seed);
    }
    var output: seq<User>, byId: set<string>, usedNames: set<string> := [], {}, {};
    for i := 0 to |next|
      invariant AbsorbAll(NOTHING, next[..i], deleted, "snapshot_collision", seed)
                == Some(Progress(output, byId, usedNames))
    {
      assert next[..i + 1][..i] == next[..i];
      var raw := next[i];
      var id := Trim(raw.id);
      if Skipped(id, byId, deleted) {
        continue;
      }
      var user := raw;
      var nameKey := NormalizeUsername(user.username);
      if nameKey != "" && nameKey in usedNames {
        var chosen := FindTemporaryUsername(user.username, seed(id), usedNames);
        if chosen.None? {
          NoneStaysNone(NOTHING, next, i + 1, deleted, "snapshot_collision", seed);
          return None;
        }
        user := user.(username := chosen.value, usernameSource := "beatgaler",
                      usernameReconciliation := "snapshot_collision");
      }
      byId := byId + {id};
      if user.username != "" {
        usedNames := usedNames + {NormalizeUsername(user.username)};
      }
      output := output + [user];
    }
    assert next[..|next|] == next;
    ghost var first := Progress(output, byId, usedNames);
    for i := 0 to |previous|
      invariant AbsorbAll(first, previous[..i], deleted, "snapshot_preserved", seed)
                == Some(Progress(output, byId, usedNames))
    {
      assert previous[..i + 1][..i] == previous[..i];
      var raw := previous[i];
      var id := Trim(raw.id);
      if Skipped(id, byId, deleted) {
        continue;
      }
      var user := raw;
      var nameKey := NormalizeUsername(user.username);
      if nameKey != "" && nameKey in usedNames {
        var chosen := FindTemporaryUsername(user.username, seed(id), usedNames);
        if chosen.None? {
          NoneStaysNone(first, previous, i + 1, deleted, "snapshot_preserved", seed);
          return None;
        }
        user := user.(username := chosen.value, usernameSource := "beatgaler",
                      usernameReconciliation := "snapshot_preserved");
      }
      byId := byId + {id};
      if user.username != "" {
        usedNames := usedNames + {NormalizeUsername(user.username)};
      }
      output := output + [user];
    }
    assert previous[..|previous|] == previous;
    PreserveKeepsEveryUserOnce(next, previous, deleted, seed);
    return Some(output);
  }

  lemma {:induction false} NoneStaysNone(p: Progress, raws: seq<User>, n: nat, deleted: set<string>, tag: string,
                                         seed: string -> nat)
    requires n <= |raws| && AbsorbAll(p, raws[..n], deleted, tag, seed).None?
    ensures AbsorbAll(p, raws, deleted, tag, seed).None?
  {
    if n < |raws| {
      assert raws[..|raws| - 1][..n] == raws[..n];
      NoneStaysNone(p, raws[..|raws| - 1], n, deleted, tag, seed);
    } else {
      assert raws[..n] == raws;
    }
  }
}

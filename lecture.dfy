/**
  Stand-ins for the C++ library calls the loaders make on the text of a feed:
  the header skip of the read loop, the removal of quote characters,
  `std::string::substr`, `std::stoi` and the implicit `int` to `unsigned int`
  conversion. A failure of any of them (an exception in C++) is `None`.
 */
module Lecture {

  datatype Option<T> = None | Some(value: T)

  /** One line of a feed file, already split on commas. */
  type Rangee = seq<string>

  const DEUX_32: int := 0x1_0000_0000
  const INT_MIN: int := -0x8000_0000
  const INT_MAX: int := 0x7FFF_FFFF

  /** The values of C++ `unsigned int`. */
  type u32 = x: int | 0 <= x < 0x1_0000_0000

  /** The conversion of an `int` to `unsigned int`: wrap-around modulo 2^32. */
  function EnNonSigne(v: int): (r: u32)
    ensures 0 <= v ==> v < DEUX_32 ==> r == v
    ensures v < 0 ==> -DEUX_32 <= v ==> r == v + DEUX_32
  {
    v % DEUX_32
  }

  /**
    The rows a loader works on. Every loader counts the lines it reads in
    `index` and skips the one with index 0, the header.
   */
  function Donnees(fichier: seq<Rangee>): (r: seq<Rangee>)
    ensures |fichier| == 0 ==> r == []
    ensures |fichier| > 0 ==> |r| == |fichier| - 1
    ensures forall i :: 0 <= i < |r| ==> r[i] == fichier[i + 1]
  {
    if |fichier| == 0 then [] else fichier[1..]
  }

  /** Row `k` of a file is row `k - 1` of its tail. */
  lemma RangeeDuReste(rangees: seq<Rangee>, k: nat)
    requires 0 < k < |rangees|
    ensures rangees[1..][k - 1] == rangees[k]
  {
  }

  /** The first `k` rows without the first are the first `k - 1` rows of the tail. */
  lemma DebutDuReste(rangees: seq<Rangee>, k: nat)
    requires 0 < k <= |rangees|
    ensures rangees[..k][0] == rangees[0]
    ensures rangees[..k][1..] == rangees[1..][..k - 1]
  {
  }

  /** The three two-character parts of `"AB:CD:EF"`, at positions 0, 3 and 6. */
  lemma TranchesHeure(hh: string, mm: string, ss: string)
    requires |hh| == 2 && |mm| == 2 && |ss| == 2
    ensures |hh + ":" + mm + ":" + ss| == 8
    ensures (hh + ":" + mm + ":" + ss)[0..2] == hh
    ensures (hh + ":" + mm + ":" + ss)[3..5] == mm
    ensures (hh + ":" + mm + ":" + ss)[6..8] == ss
  {
    var t := hh + ":" + mm + ":" + ss;
    assert t[0] == hh[0] && t[1] == hh[1] && t[3] == mm[0] && t[4] == mm[1] && t[6] == ss[0] && t[7] == ss[1];
  }

  /** The parts of `"AAAAMMJJ"`, at positions 0, 4 and 6. */
  lemma TranchesDate(aaaa: string, mm: string, jj: string)
    requires |aaaa| == 4 && |mm| == 2 && |jj| == 2
    ensures |aaaa + mm + jj| == 8
    ensures (aaaa + mm + jj)[0..4] == aaaa
    ensures (aaaa + mm + jj)[4..6] == mm
    ensures (aaaa + mm + jj)[6..8] == jj
  {
    var t := aaaa + mm + jj;
    assert forall i :: 0 <= i < 4 ==> t[i] == aaaa[i];
    assert t[4] == mm[0] && t[5] == mm[1] && t[6] == jj[0] && t[7] == jj[1];
  }

  /** A field with every double-quote character erased. */
  function SansGuillemets(s: string): (r: string)
    ensures |r| <= |s|
  {
    if |s| == 0 then ""
    else (if s[0] == '"' then "" else [s[0]]) + SansGuillemets(s[1..])
  }

  /** No quote character is left. */
  lemma {:induction false} SansGuillemetsSansGuillemet(s: string)
    ensures forall i :: 0 <= i < |SansGuillemets(s)| ==> SansGuillemets(s)[i] != '"'
    decreases |s|
  {
    if |s| > 0 {
      SansGuillemetsSansGuillemet(s[1..]);
    }
  }

  /** The erase works character by character: it distributes over concatenation. */
  lemma {:induction false} SansGuillemetsConcat(a: string, b: string)
    ensures SansGuillemets(a + b) == SansGuillemets(a) + SansGuillemets(b)
    decreases |a|
  {
    if |a| == 0 {
      assert a + b == b;
    } else {
      assert (a + b)[0] == a[0] && (a + b)[1..] == a[1..] + b;
      SansGuillemetsConcat(a[1..], b);
    }
  }

  /** A single character is erased iff it is a quote. */
  lemma SansGuillemetsCaractere(c: char)
    ensures SansGuillemets([c]) == if c == '"' then "" else [c]
  {
    assert [c][1..] == "";
  }

  /** A field with no quote is left as it is. */
  lemma {:induction false} SansGuillemetsIdentite(s: string)
    requires forall i :: 0 <= i < |s| ==> s[i] != '"'
    ensures SansGuillemets(s) == s
    decreases |s|
  {
    if |s| > 0 {
      assert forall i :: 0 <= i < |s[1..]| ==> s[1..][i] == s[i + 1];
      SansGuillemetsIdentite(s[1..]);
    }
  }

  /**
    Field `i` of a row with its double-quotes erased. The loaders erase the
    quotes from the whole line before splitting it on commas; a quote is not
    a comma, so this gives the same fields.
   */
  function Champ(rangee: Rangee, i: nat): string
    requires i < |rangee|
  {
    SansGuillemets(rangee[i])
  }

  /** `s.substr(pos, n)`: fails when `pos` is past the end, is cut short at the end otherwise. */
  function SousChaine(s: string, pos: nat, n: nat): (r: Option<string>)
    ensures r.Some? <==> pos <= |s|
    ensures r.Some? ==> |r.value| <= n && r.value <= s[pos..]
  {
    if |s| < pos then None
    else if |s| < pos + n then Some(s[pos..])
    else Some(s[pos..pos + n])
  }

  /** The text `substr` gives is exactly `n` characters long, or what is left of `s` when that is shorter. */
  lemma SousChaineLongueur(s: string, pos: nat, n: nat)
    requires pos <= |s|
    ensures SousChaine(s, pos, n) == Some(s[pos..pos + (if |s| - pos < n then |s| - pos else n)])
  {
    assert s[pos..] == s[pos..|s|];
  }

  /** The characters `isspace` accepts: space, tab, line feed, vertical tab, form feed, return. */
  predicate EstEspace(c: char)
  {
    c == ' ' || 9 <= c as int <= 13
  }

  predicate EstChiffre(c: char)
  {
    '0' <= c <= '9'
  }

  function ValeurChiffre(c: char): nat
  {
    if EstChiffre(c) then c as int - '0' as int else 0
  }

  function SansEspacesInitiaux(s: string): (r: string)
    ensures |r| <= |s|
  {
    if |s| > 0 && EstEspace(s[0]) then SansEspacesInitiaux(s[1..]) else s
  }

  /** The length of the longest prefix of `s` made of decimal digits. */
  function NbChiffresInitiaux(s: string): (n: nat)
    ensures n <= |s|
    ensures n < |s| ==> !EstChiffre(s[n])
  {
    if |s| > 0 && EstChiffre(s[0]) then 1 + NbChiffresInitiaux(s[1..]) else 0
  }

  /** The prefix `NbChiffresInitiaux` measures is made of digits; with its ensures, it is the longest such prefix. */
  lemma {:induction false} NbChiffresInitiauxChiffres(s: string)
    ensures forall i :: 0 <= i < NbChiffresInitiaux(s) ==> EstChiffre(s[i])
    decreases |s|
  {
    if |s| > 0 && EstChiffre(s[0]) {
      NbChiffresInitiauxChiffres(s[1..]);
      assert forall i :: 0 < i < NbChiffresInitiaux(s) ==> s[i] == s[1..][i - 1];
    }
  }

  /** A run of digits followed by a non-digit (or nothing) is measured exactly. */
  lemma {:induction false} NbChiffresInitiauxPrefixe(d: string, reste: string)
    requires forall i :: 0 <= i < |d| ==> EstChiffre(d[i])
    requires |reste| == 0 || !EstChiffre(reste[0])
    ensures NbChiffresInitiaux(d + reste) == |d|
    ensures (d + reste)[..NbChiffresInitiaux(d + reste)] == d
    decreases |d|
  {
    assert (d + reste)[..|d|] == d;
    if |d| == 0 {
      assert d + reste == reste;
    } else {
      assert (d + reste)[0] == d[0] && (d + reste)[1..] == d[1..] + reste;
      assert forall i :: 0 <= i < |d[1..]| ==> d[1..][i] == d[i + 1];
      NbChiffresInitiauxPrefixe(d[1..], reste);
    }
  }

  /** The number a string of decimal digits denotes. */
  function ValeurDecimale(d: string): nat
  {
    if |d| == 0 then 0 else 10 * ValeurDecimale(d[..|d| - 1]) + ValeurChiffre(d[|d| - 1])
  }

  /**
    `std::stoi(s)`: leading white space is skipped, an optional sign is read,
    then the longest run of decimal digits; what follows is ignored. It fails
    (throws) when there is no digit or when the value does not fit an `int`.
   */
  function Stoi(s: string): (r: Option<int>)
    ensures r.Some? ==> INT_MIN <= r.value <= INT_MAX
  {
    var t := SansEspacesInitiaux(s);
    var signe := |t| > 0 && (t[0] == '-' || t[0] == '+');
    var u := if signe then t[1..] else t;
    var n := NbChiffresInitiaux(u);
    var valeur: int := ValeurDecimale(u[..n]);
    var v := if signe && t[0] == '-' then -valeur else valeur;
    if n == 0 || v < INT_MIN || INT_MAX < v then None else Some(v)
  }

  /**
    `stoi` of a run of digits followed by text that does not start with a
    digit is the number the digits denote, when it fits an `int`.
   */
  lemma StoiChiffres(d: string, reste: string)
    requires 0 < |d|
    requires forall i :: 0 <= i < |d| ==> EstChiffre(d[i])
    requires |reste| == 0 || !EstChiffre(reste[0])
    requires ValeurDecimale(d) <= INT_MAX
    ensures Stoi(d + reste) == Some(ValeurDecimale(d))
  {
    var u := d + reste;
    assert !EstEspace(u[0]) && u[0] != '-' && u[0] != '+';
    assert SansEspacesInitiaux(u) == u;
    NbChiffresInitiauxPrefixe(d, reste);
    assert u[..|d|] == d;
  }

  /** Digits followed by text that does not start with a digit, and too large for an `int`: `stoi` throws. */
  lemma StoiTropGrand(d: string, reste: string)
    requires 0 < |d|
    requires forall i :: 0 <= i < |d| ==> EstChiffre(d[i])
    requires |reste| == 0 || !EstChiffre(reste[0])
    requires INT_MAX < ValeurDecimale(d)
    ensures Stoi(d + reste) == None
  {
    var u := d + reste;
    assert !EstEspace(u[0]) && u[0] != '-' && u[0] != '+';
    assert SansEspacesInitiaux(u) == u;
    NbChiffresInitiauxPrefixe(d, reste);
  }

  function Puissance10(n: nat): nat
  {
    if n == 0 then 1 else 10 * Puissance10(n - 1)
  }

  /** `n` digits denote a number below 10^n. */
  lemma {:induction false} ValeurDecimaleBornee(d: string)
    requires forall i :: 0 <= i < |d| ==> EstChiffre(d[i])
    ensures ValeurDecimale(d) < Puissance10(|d|)
    decreases |d|
  {
    if |d| > 0 {
      var p := d[..|d| - 1];
      assert forall i :: 0 <= i < |p| ==> p[i] == d[i];
      ValeurDecimaleBornee(p);
      assert 10 * ValeurDecimale(p) <= 10 * (Puissance10(|p|) - 1);
    }
  }

  lemma {:induction false} Puissance10Croissante(m: nat, n: nat)
    requires m <= n
    ensures Puissance10(m) <= Puissance10(n)
    decreases n
  {
    if m < n {
      Puissance10Croissante(m, n - 1);
    }
  }

  /**
    A field of at most four digits at a fixed position, as the date and time
    parsers cut it with `substr` and read it with `stoi`: the cut is those
    digits and `stoi` reads the number they denote.
   */
  lemma SousChaineEntiere(t: string, pos: nat, n: nat)
    requires 0 < n <= 4 && pos + n <= |t|
    requires forall i :: pos <= i < pos + n ==> EstChiffre(t[i])
    ensures SousChaine(t, pos, n) == Some(t[pos..pos + n])
    ensures Stoi(t[pos..pos + n]) == Some(ValeurDecimale(t[pos..pos + n]))
  {
    SousChaineLongueur(t, pos, n);
    var d := t[pos..pos + n];
    assert forall i :: 0 <= i < |d| ==> d[i] == t[pos + i];
    ValeurDecimaleBornee(d);
    Puissance10Croissante(n, 4);
    assert Puissance10(4) == 10000;
    assert d + "" == d;
    StoiChiffres(d, "");
  }

  /** `stoi` of the empty string throws: there is no digit. */
  lemma StoiVide()
    ensures Stoi("") == None
  {
  }

  /** `stoi` throws on text whose first character is neither white space, a sign nor a digit. */
  lemma StoiSansChiffre(s: string)
    requires 0 < |s| && !EstChiffre(s[0]) && !EstEspace(s[0]) && s[0] != '-' && s[0] != '+'
    ensures Stoi(s) == None
  {
  }

  /** `stoi` throws on a sign that no digit follows. */
  lemma StoiSigneSansChiffre(s: string)
    requires 0 < |s| && (s[0] == '-' || s[0] == '+')
    requires |s| == 1 || !EstChiffre(s[1])
    ensures Stoi(s) == None
  {
    assert SansEspacesInitiaux(s) == s;
    assert |s[1..]| == 0 || s[1..][0] == s[1];
  }

  /** `stoi` skips a leading white-space character. */
  lemma StoiEspace(c: char, s: string)
    requires EstEspace(c)
    ensures Stoi([c] + s) == Stoi(s)
  {
    assert ([c] + s)[1..] == s;
  }

  /** `stoi` after a minus sign reads the digits that follow it and negates their value; it throws below `INT_MIN`. */
  lemma StoiMoins(u: string, valeur: int)
    requires 0 < NbChiffresInitiaux(u)
    requires ValeurDecimale(u[..NbChiffresInitiaux(u)]) == valeur
    ensures Stoi("-" + u) == if valeur <= -INT_MIN then Some(-valeur) else None
  {
    var t := "-" + u;
    assert t[0] == '-' && !EstEspace(t[0]) && t[1..] == u;
  }

  /** `stoi` after a plus sign reads the digits that follow it as a plain value; it throws above `INT_MAX`. */
  lemma StoiPlus(u: string, valeur: int)
    requires 0 < NbChiffresInitiaux(u)
    requires ValeurDecimale(u[..NbChiffresInitiaux(u)]) == valeur
    ensures Stoi("+" + u) == if valeur <= INT_MAX then Some(valeur) else None
  {
    var t := "+" + u;
    assert t[0] == '+' && !EstEspace(t[0]) && t[1..] == u;
  }
}

/**
  The service calendar: `ajouterServices` keeps the services added (exception
  type "1") on the configured date. Unlike every other loader it does not
  erase quote characters from its rows.
 */
module Services {
  import opened Lecture
  import opened Modele

  /** A `YYYYMMDD` field: characters 0-3, 4-5 and 6-7 each read by `stoi` and converted to `unsigned int`. */
  function LireDate(texte: string): Option<Date>
  {
    var annee := SousChaine(texte, 0, 4);
    var mois := SousChaine(texte, 4, 2);
    var jour := SousChaine(texte, 6, 2);
    if annee.None? || mois.None? || jour.None? then None
    else
      var a := Stoi(annee.value);
      var m := Stoi(mois.value);
      var j := Stoi(jour.value);
      if a.None? || m.None? || j.None? then None
      else Some(Date(EnNonSigne(a.value), EnNonSigne(m.value), EnNonSigne(j.value)))
  }

  /**
    A date field whose first eight characters are digits reads as the year,
    month and day that characters 0-3, 4-5 and 6-7 denote, whatever follows.
   */
  lemma LireDateChiffres(t: string)
    requires 8 <= |t|
    requires forall i :: 0 <= i < 4 ==> EstChiffre(t[i])
    requires EstChiffre(t[4]) && EstChiffre(t[5]) && EstChiffre(t[6]) && EstChiffre(t[7])
    ensures LireDate(t).Some?
    ensures LireDate(t).value.annee == ValeurDecimale(t[0..4])
    ensures LireDate(t).value.mois == ValeurDecimale(t[4..6])
    ensures LireDate(t).value.jour == ValeurDecimale(t[6..8])
  {
    SousChaineEntiere(t, 0, 4);
    SousChaineEntiere(t, 4, 2);
    SousChaineEntiere(t, 6, 2);
  }

  /** `"YYYYMMDD"` reads as `Date(YYYY, MM, DD)`. */
  lemma LireDateTexte(aaaa: string, mm: string, jj: string)
    requires |aaaa| == 4 && |mm| == 2 && |jj| == 2
    requires forall i :: 0 <= i < 4 ==> EstChiffre(aaaa[i])
    requires EstChiffre(mm[0]) && EstChiffre(mm[1]) && EstChiffre(jj[0]) && EstChiffre(jj[1])
    ensures LireDate(aaaa + mm + jj).Some?
    ensures LireDate(aaaa + mm + jj).value.annee == ValeurDecimale(aaaa)
    ensures LireDate(aaaa + mm + jj).value.mois == ValeurDecimale(mm)
    ensures LireDate(aaaa + mm + jj).value.jour == ValeurDecimale(jj)
  {
    var t := aaaa + mm + jj;
    TranchesDate(aaaa, mm, jj);
    assert forall i :: 0 <= i < 4 ==> t[i] == aaaa[i];
    assert t[4] == mm[0] && t[5] == mm[1] && t[6] == jj[0] && t[7] == jj[1];
    LireDateChiffres(t);
  }

  /** A date field shorter than seven characters throws: the day is cut past the end or is empty. */
  lemma LireDateCourte(t: string)
    requires |t| < 7
    ensures LireDate(t) == None
  {
    if |t| == 6 {
      assert t[6..] == "";
      StoiVide();
    }
  }

  /**
    One row of the calendar-exceptions file: service id in field 0, date in 1,
    exception type in 2. The service is kept iff the type is exactly "1" and
    the date is the configured one; a row that throws is one with fewer than
    three fields or a date that does not parse.
   */
  function LireService(date: Date, rangee: Rangee): (r: Lu<string>)
    ensures r.Malformee? <==> |rangee| < 3 || LireDate(rangee[1]).None?
    ensures r.Retenue? <==> 3 <= |rangee| && rangee[2] == "1" && LireDate(rangee[1]) == Some(date)
    ensures r.Retenue? ==> r.valeur == rangee[0]
  {
    if |rangee| < 3 then Malformee
    else match LireDate(rangee[1])
      case None => Malformee
      case Some(d) => if rangee[2] == "1" && d == date then Retenue(rangee[0]) else Ignoree
  }

  /** `ajouterServices` on the rows after the header: stops at the first malformed row. */
  function ChargerServices(date: Date, services: set<string>, rangees: seq<Rangee>): Bilan<set<string>>
    decreases |rangees|
  {
    if |rangees| == 0 then Bilan(services, Reussi)
    else match LireService(date, rangees[0])
      case Malformee => Bilan(services, Echec(DonneeInvalide))
      case Ignoree => ChargerServices(date, services, rangees[1..])
      case Retenue(id) => ChargerServices(date, services + {id}, rangees[1..])
  }

  /** The fold from row `i` on, unfolded once. */
  lemma ChargerServicesPas(date: Date, services: set<string>, rangees: seq<Rangee>, i: nat)
    requires i < |rangees|
    ensures ChargerServices(date, services, rangees[i..])
            == match LireService(date, rangees[i])
               case Malformee => Bilan(services, Echec(DonneeInvalide))
               case Ignoree => ChargerServices(date, services, rangees[i + 1..])
               case Retenue(id) => ChargerServices(date, services + {id}, rangees[i + 1..])
  {
    assert rangees[i..][0] == rangees[i] && rangees[i..][1..] == rangees[i + 1..];
  }

  /** Every row of `rangees` parses. */
  ghost predicate BienFormees(date: Date, rangees: seq<Rangee>)
  {
    forall k {:trigger LireService(date, rangees[k])} :: 0 <= k < |rangees| ==> !LireService(date, rangees[k]).Malformee?
  }

  /** The rows after a first row that parses parse iff all the rows do. */
  lemma BienFormeesReste(date: Date, rangees: seq<Rangee>)
    requires 0 < |rangees|
    ensures BienFormees(date, rangees) <==> !LireService(date, rangees[0]).Malformee? && BienFormees(date, rangees[1..])
  {
    if !LireService(date, rangees[0]).Malformee? && BienFormees(date, rangees[1..]) {
      forall k | 0 < k < |rangees| ensures !LireService(date, rangees[k]).Malformee? {
        RangeeDuReste(rangees, k);
      }
    }
    if BienFormees(date, rangees) {
      forall j | 0 <= j < |rangees[1..]| ensures !LireService(date, rangees[1..][j]).Malformee? {
        RangeeDuReste(rangees, j + 1);
      }
    }
  }

  /** `ajouterServices` only adds services: every service active before stays active. */
  lemma {:induction false} ChargerServicesCroit(date: Date, services: set<string>, rangees: seq<Rangee>)
    ensures services <= ChargerServices(date, services, rangees).etat
    decreases |rangees|
  {
    if |rangees| > 0 {
      match LireService(date, rangees[0])
      case Malformee =>
      case Ignoree => ChargerServicesCroit(date, services, rangees[1..]);
      case Retenue(id) => ChargerServicesCroit(date, services + {id}, rangees[1..]);
    }
  }

  /** The calendar file loads iff every row parses; otherwise it throws. */
  lemma {:induction false} ChargerServicesIssue(date: Date, services: set<string>, rangees: seq<Rangee>)
    ensures ChargerServices(date, services, rangees).issue == if BienFormees(date, rangees) then Reussi else Echec(DonneeInvalide)
    decreases |rangees|
  {
    if |rangees| > 0 {
      var lu := LireService(date, rangees[0]);
      if lu.Malformee? {
        assert !BienFormees(date, rangees);
      } else {
        ChargerServicesIssue(date, if lu.Retenue? then services + {lu.valeur} else services, rangees[1..]);
        BienFormeesReste(date, rangees);
      }
    }
  }

  /** A service active after the load and not before was added by some row on the configured date. */
  lemma {:induction false} ChargerServicesOrigine(date: Date, services: set<string>, rangees: seq<Rangee>, id: string)
    requires id in ChargerServices(date, services, rangees).etat
    requires id !in services
    ensures exists k :: 0 <= k < |rangees| && LireService(date, rangees[k]) == Retenue(id)
    decreases |rangees|
  {
    var lu := LireService(date, rangees[0]);
    if lu != Retenue(id) {
      ChargerServicesOrigine(date, if lu.Retenue? then services + {lu.valeur} else services, rangees[1..], id);
      var k :| 0 <= k < |rangees[1..]| && LireService(date, rangees[1..][k]) == Retenue(id);
      assert rangees[1..][k] == rangees[k + 1];
    }
  }

  /** The active services after one row that does not throw. */
  function Ajouter(date: Date, services: set<string>, rangee: Rangee): (r: set<string>)
    ensures services <= r
  {
    match LireService(date, rangee)
    case Retenue(id) => services + {id}
    case _ => services
  }

  /** A first row that adds a service on the configured date makes it active after the load. */
  lemma ChargerServicesAjoutePremiere(date: Date, services: set<string>, rangees: seq<Rangee>, id: string)
    requires 0 < |rangees|
    requires LireService(date, rangees[0]) == Retenue(id)
    ensures id in ChargerServices(date, services, rangees).etat
  {
    assert ChargerServices(date, services, rangees) == ChargerServices(date, services + {id}, rangees[1..]);
    ChargerServicesCroit(date, services + {id}, rangees[1..]);
  }

  /** A load that succeeds goes on past its first row with the services that row leaves. */
  lemma ChargerServicesAvancer(date: Date, services: set<string>, rangees: seq<Rangee>)
    requires 0 < |rangees|
    requires ChargerServices(date, services, rangees).issue == Reussi
    ensures ChargerServices(date, services, rangees) == ChargerServices(date, Ajouter(date, services, rangees[0]), rangees[1..])
  {
  }

  /** When the load succeeds, every service a row adds on the configured date is active after it. */
  lemma {:induction false} ChargerServicesAjoute(date: Date, services: set<string>, rangees: seq<Rangee>, k: nat, id: string)
    requires k < |rangees|
    requires ChargerServices(date, services, rangees).issue == Reussi
    requires LireService(date, rangees[k]) == Retenue(id)
    ensures id in ChargerServices(date, services, rangees).etat
    decreases k, 1
  {
    if 0 < k {
      ChargerServicesAjouteApres(date, services, rangees, k, id);
    } else {
      ChargerServicesAjoutePremiere(date, services, rangees, id);
    }
  }

  /** The case of a row after the first: the first row is read, then the rest of the file is loaded. */
  lemma {:induction false} ChargerServicesAjouteApres(date: Date, services: set<string>, rangees: seq<Rangee>, k: nat, id: string)
    requires 0 < k < |rangees|
    requires ChargerServices(date, services, rangees).issue == Reussi
    requires LireService(date, rangees[k]) == Retenue(id)
    ensures id in ChargerServices(date, services, rangees).etat
    decreases k, 0
  {
    ChargerServicesAvancer(date, services, rangees);
    RangeeDuReste(rangees, k);
    ChargerServicesAjoute(date, Ajouter(date, services, rangees[0]), rangees[1..], k - 1, id);
  }

  /**
    The calendar file loads iff every row parses. Then a service id is active
    afterwards iff it was before or some row adds it on the configured date;
    every other row leaves the set unchanged.
   */
  lemma ChargerServicesSpec(date: Date, services: set<string>, rangees: seq<Rangee>)
    ensures ChargerServices(date, services, rangees).issue == if BienFormees(date, rangees) then Reussi else Echec(DonneeInvalide)
    ensures BienFormees(date, rangees) ==>
      forall id :: id in ChargerServices(date, services, rangees).etat <==>
        id in services || exists k :: 0 <= k < |rangees| && LireService(date, rangees[k]) == Retenue(id)
  {
    ChargerServicesIssue(date, services, rangees);
    if BienFormees(date, rangees) {
      ChargerServicesCroit(date, services, rangees);
      forall id ensures id in ChargerServices(date, services, rangees).etat <==>
        id in services || exists k :: 0 <= k < |rangees| && LireService(date, rangees[k]) == Retenue(id)
      {
        if id in ChargerServices(date, services, rangees).etat && id !in services {
          ChargerServicesOrigine(date, services, rangees, id);
        }
        if exists k :: 0 <= k < |rangees| && LireService(date, rangees[k]) == Retenue(id) {
          var k :| 0 <= k < |rangees| && LireService(date, rangees[k]) == Retenue(id);
          ChargerServicesAjoute(date, services, rangees, k, id);
        }
      }
    }
  }

  /**
    A malformed row stops the load: the services of the rows before it stay
    active and nothing after it is read.
   */
  lemma {:induction false} ChargerServicesEchec(date: Date, services: set<string>, rangees: seq<Rangee>, k: nat)
    requires k < |rangees|
    requires BienFormees(date, rangees[..k])
    requires LireService(date, rangees[k]).Malformee?
    ensures ChargerServices(date, services, rangees) == Bilan(ChargerServices(date, services, rangees[..k]).etat, Echec(DonneeInvalide))
    decreases k
  {
    if k > 0 {
      assert rangees[..k][0] == rangees[0];
      assert rangees[..k][1..] == rangees[1..][..k - 1];
      assert !LireService(date, rangees[..k][0]).Malformee?;
      var lu := LireService(date, rangees[0]);
      var services' := if lu.Retenue? then services + {lu.valeur} else services;
      ChargerServicesEchec(date, services', rangees[1..], k - 1);
    }
  }
}

/** The route catalog: `ajouterLignes` as a fold over the rows of the routes file. */
module Lignes {
  import opened Lecture
  import opened Modele
  import opened Tables

  /** `m_lignes` (by id) and `m_lignes_par_numero` (every route under its number, in insertion order). */
  datatype EtatLignes = EtatLignes(lignes: map<int, Ligne>, parNumero: map<string, seq<Ligne>>)

  /** The routes stored under a number, as `equal_range` on the multimap gives them. */
  function SousNumero(parNumero: map<string, seq<Ligne>>, numero: string): seq<Ligne>
  {
    if numero in parNumero then parNumero[numero] else []
  }

  /**
    One row of the routes file: id in field 0, number in 2, description in 4,
    colour in 7. The row throws when it has fewer than eight fields or its id
    is not a number.
   */
  function LireLigne(categorie: string -> CategorieBus, rangee: Rangee): (r: Option<Ligne>)
    ensures r.Some? <==> 8 <= |rangee| && Stoi(Champ(rangee, 0)).Some?
    ensures r.Some? ==> r.value == Ligne(Stoi(Champ(rangee, 0)).value, Champ(rangee, 2), Champ(rangee, 4), categorie(Champ(rangee, 7)))
  {
    if |rangee| < 8 then None
    else match Stoi(Champ(rangee, 0))
      case None => None
      case Some(id) => Some(Ligne(id, Champ(rangee, 2), Champ(rangee, 4), categorie(Champ(rangee, 7))))
  }

  /** The state after storing one route under its id and under its number. */
  function Inserer(e: EtatLignes, l: Ligne): EtatLignes
  {
    EtatLignes(e.lignes[l.id := l], e.parNumero[l.numero := SousNumero(e.parNumero, l.numero) + [l]])
  }

  /**
    Storing a route writes it under its id, the last write winning, and
    appends it to the routes under its number, every other number keeping
    its routes.
   */
  lemma InsererEffet(e: EtatLignes, l: Ligne)
    ensures Inserer(e, l).lignes.Keys == e.lignes.Keys + {l.id}
    ensures Inserer(e, l).lignes[l.id] == l
    ensures forall id :: id in e.lignes && id != l.id ==> Inserer(e, l).lignes[id] == e.lignes[id]
    ensures forall n :: SousNumero(Inserer(e, l).parNumero, n) == SousNumero(e.parNumero, n) + (if n == l.numero then [l] else [])
  {
  }

  /** `ajouterLignes` on the rows after the header: stops at the first malformed row. */
  function ChargerLignes(categorie: string -> CategorieBus, e: EtatLignes, rangees: seq<Rangee>): Bilan<EtatLignes>
    decreases |rangees|
  {
    if |rangees| == 0 then Bilan(e, Reussi)
    else match LireLigne(categorie, rangees[0])
      case None => Bilan(e, Echec(DonneeInvalide))
      case Some(l) => ChargerLignes(categorie, Inserer(e, l), rangees[1..])
  }

  /** The fold from row `i` on, unfolded once. */
  lemma ChargerLignesPas(categorie: string -> CategorieBus, e: EtatLignes, rangees: seq<Rangee>, i: nat)
    requires i < |rangees|
    ensures ChargerLignes(categorie, e, rangees[i..])
            == match LireLigne(categorie, rangees[i])
               case None => Bilan(e, Echec(DonneeInvalide))
               case Some(l) => ChargerLignes(categorie, Inserer(e, l), rangees[i + 1..])
  {
    assert rangees[i..][0] == rangees[i] && rangees[i..][1..] == rangees[i + 1..];
  }

  /** The routes of the rows, in order, when every row is well formed. */
  function LignesLues(categorie: string -> CategorieBus, rangees: seq<Rangee>): Option<seq<Ligne>>
    decreases |rangees|
  {
    if |rangees| == 0 then Some([])
    else match (LireLigne(categorie, rangees[0]), LignesLues(categorie, rangees[1..]))
      case (Some(l), Some(ls)) => Some([l] + ls)
      case _ => None
  }

  /** The key a route is stored under in `m_lignes`: its id. */
  function IdLigne(x: Ligne): int
  {
    x.id
  }

  /** The routes of `ls` that carry `numero`, in order. */
  function AvecNumero(ls: seq<Ligne>, numero: string): seq<Ligne>
  {
    if |ls| == 0 then []
    else (if ls[0].numero == numero then [ls[0]] else []) + AvecNumero(ls[1..], numero)
  }

  /** Well-formed rows: the first route heads the list and the load goes on from it. */
  lemma LignesLuesPremiere(categorie: string -> CategorieBus, e: EtatLignes, rangees: seq<Rangee>, ls: seq<Ligne>)
    requires 0 < |rangees|
    requires LignesLues(categorie, rangees) == Some(ls)
    ensures LireLigne(categorie, rangees[0]).Some? && LignesLues(categorie, rangees[1..]).Some?
    ensures ls == [LireLigne(categorie, rangees[0]).value] + LignesLues(categorie, rangees[1..]).value
    ensures ChargerLignes(categorie, e, rangees) == ChargerLignes(categorie, Inserer(e, LireLigne(categorie, rangees[0]).value), rangees[1..])
  {
  }

  /** The routes of the rows are read iff every row is well formed. */
  lemma {:induction false} LignesLuesToutes(categorie: string -> CategorieBus, rangees: seq<Rangee>)
    ensures LignesLues(categorie, rangees).Some? <==> forall k :: 0 <= k < |rangees| ==> LireLigne(categorie, rangees[k]).Some?
    decreases |rangees|
  {
    if |rangees| > 0 {
      LignesLuesToutes(categorie, rangees[1..]);
      assert forall k :: 0 < k < |rangees| ==> rangees[1..][k - 1] == rangees[k];
    }
  }

  /** The state after storing the routes of `ls` one after the other. */
  function InsererTous(e: EtatLignes, ls: seq<Ligne>): EtatLignes
    decreases |ls|
  {
    if |ls| == 0 then e else InsererTous(Inserer(e, ls[0]), ls[1..])
  }

  /** On well-formed rows, the load succeeds and stores the routes read, in row order. */
  lemma {:induction false} ChargerLignesInserees(categorie: string -> CategorieBus, e: EtatLignes, rangees: seq<Rangee>, ls: seq<Ligne>)
    requires LignesLues(categorie, rangees) == Some(ls)
    ensures ChargerLignes(categorie, e, rangees) == Bilan(InsererTous(e, ls), Reussi)
    decreases |rangees|
  {
    if |rangees| > 0 {
      LignesLuesPremiere(categorie, e, rangees, ls);
      var l := LireLigne(categorie, rangees[0]).value;
      var reste := LignesLues(categorie, rangees[1..]).value;
      ChargerLignesInserees(categorie, Inserer(e, l), rangees[1..], reste);
      assert ls[0] == l && ls[1..] == reste;
    }
  }

  /** Storing routes one after the other appends, under each number, the routes carrying it, in order. */
  lemma {:induction false} InsererTousParNumero(e: EtatLignes, ls: seq<Ligne>, numero: string)
    ensures SousNumero(InsererTous(e, ls).parNumero, numero) == SousNumero(e.parNumero, numero) + AvecNumero(ls, numero)
    decreases |ls|
  {
    if |ls| > 0 {
      var l := ls[0];
      InsererTousParNumero(Inserer(e, l), ls[1..], numero);
      InsererEffet(e, l);
      var ici := if l.numero == numero then [l] else [];
      assert SousNumero(e.parNumero, numero) + ici + AvecNumero(ls[1..], numero)
          == SousNumero(e.parNumero, numero) + (ici + AvecNumero(ls[1..], numero));
    }
  }

  /** The routes file loads iff every row is well formed; otherwise it throws. */
  lemma {:induction false} ChargerLignesIssue(categorie: string -> CategorieBus, e: EtatLignes, rangees: seq<Rangee>)
    ensures ChargerLignes(categorie, e, rangees).issue == if LignesLues(categorie, rangees).Some? then Reussi else Echec(DonneeInvalide)
    decreases |rangees|
  {
    if |rangees| > 0 && LireLigne(categorie, rangees[0]).Some? {
      ChargerLignesIssue(categorie, Inserer(e, LireLigne(categorie, rangees[0]).value), rangees[1..]);
    }
  }

  /** On well-formed rows, `m_lignes` is the old map upserted with the routes by id, in row order. */
  lemma {:induction false} ChargerLignesParId(categorie: string -> CategorieBus, e: EtatLignes, rangees: seq<Rangee>, ls: seq<Ligne>)
    requires LignesLues(categorie, rangees) == Some(ls)
    ensures ChargerLignes(categorie, e, rangees).etat.lignes == Upserts(e.lignes, ParId(ls, IdLigne))
    decreases |rangees|
  {
    if |rangees| > 0 {
      LignesLuesPremiere(categorie, e, rangees, ls);
      var l := LireLigne(categorie, rangees[0]).value;
      var reste := LignesLues(categorie, rangees[1..]).value;
      ChargerLignesParId(categorie, Inserer(e, l), rangees[1..], reste);
      assert ParId(ls, IdLigne) == [(l.id, l)] + ParId(reste, IdLigne);
    }
  }

  /**
    On well-formed rows, `m_lignes_par_numero` holds under each number its old
    routes followed by every new route with that number, duplicates included.
   */
  lemma ChargerLignesParNumero(categorie: string -> CategorieBus, e: EtatLignes, rangees: seq<Rangee>, ls: seq<Ligne>, numero: string)
    requires LignesLues(categorie, rangees) == Some(ls)
    ensures SousNumero(ChargerLignes(categorie, e, rangees).etat.parNumero, numero) == SousNumero(e.parNumero, numero) + AvecNumero(ls, numero)
  {
    ChargerLignesInserees(categorie, e, rangees, ls);
    InsererTousParNumero(e, ls, numero);
  }

  /**
    A malformed row stops the load: the routes of the rows before it stay
    stored (nothing is rolled back) and nothing after it is read.
   */
  lemma {:induction false} ChargerLignesEchec(categorie: string -> CategorieBus, e: EtatLignes, rangees: seq<Rangee>, k: nat)
    requires k < |rangees|
    requires LignesLues(categorie, rangees[..k]).Some?
    requires LireLigne(categorie, rangees[k]).None?
    ensures ChargerLignes(categorie, e, rangees) == Bilan(ChargerLignes(categorie, e, rangees[..k]).etat, Echec(DonneeInvalide))
    decreases k
  {
    if k > 0 {
      assert rangees[..k][0] == rangees[0];
      assert rangees[..k][1..] == rangees[1..][..k - 1];
      var l := LireLigne(categorie, rangees[0]).value;
      ChargerLignesEchec(categorie, Inserer(e, l), rangees[1..], k - 1);
    }
  }
}

/** The REST controller for products. It keeps no state of its own: each handler
    takes the repository's answers (a `ProductDao.Dao`) and the request's inputs,
    and returns the repository calls it made together with its response or the
    exception it raises. */
module ProductController {
  import opened Wrappers
  import opened Int32
  import opened Decimal
  import opened Product
  import opened ProductDao

  /** The price a product may not be created with. */
  const ZERO_EURO: int32 := 0

  /** The price threshold the test endpoint always queries with. */
  const TEST_PRIX_LIMIT: int32 := 400

  /** The controller's exceptions, each with the message it is raised with. */
  datatype Error =
    | ProduitIntrouvable(message: string)
    | ProduitGratuit(message: string)
    | AucunProduitEnMagasin(message: string)

  datatype Result<T> = Ok(value: T) | Err(error: Error)

  /** A handler's outcome: the repository calls it issued, in order, and what it returned. */
  datatype Handled<T> = Handled(calls: seq<DaoCall>, result: Result<T>)

  /** The two bodiless responses of product creation. */
  datatype Creation = NoContent | Created(location: string)

  // ---------------------------------------------------------------------------
  // listeProduits

  /** The name-ordered list, with `prixAchat` filtered out of every element. */
  function ListeProduits(dao: Dao): (h: Handled<seq<ProductView>>)
    ensures h.calls == [FindAllByOrderByNomAsc] && h.result.Ok?
    ensures |h.result.value| == |dao.findAllByOrderByNomAsc|
    ensures forall i :: 0 <= i < |h.result.value| ==>
      WithPrixAchat(h.result.value[i], dao.findAllByOrderByNomAsc[i].prixAchat)
        == dao.findAllByOrderByNomAsc[i]
  {
    Handled([FindAllByOrderByNomAsc], Ok(ProjectAll(dao.findAllByOrderByNomAsc)))
  }

  /** The filter keeps every name at its index, so the list has the same names
      in the same order as the repository gave them, and a name-sorted list
      stays sorted. */
  lemma ListeProduitsKeepsNameOrder(dao: Dao)
    ensures ViewNoms(ListeProduits(dao).result.value) == Noms(dao.findAllByOrderByNomAsc)
    ensures NomsSorted(Noms(dao.findAllByOrderByNomAsc)) ==>
      NomsSorted(ViewNoms(ListeProduits(dao).result.value))
  {
    var ps := dao.findAllByOrderByNomAsc;
    var vs := ListeProduits(dao).result.value;
    forall i | 0 <= i < |vs| ensures vs[i].nom == ps[i].nom {
      assert vs[i] == Project(ps[i]);
    }
  }

  // ---------------------------------------------------------------------------
  // afficherUnProduit

  const INTROUVABLE_PREFIX: string := "Le produit avec l'id "
  const INTROUVABLE_SUFFIX: string := " est INTROUVABLE. Écran Bleu si je pouvais."

  function IntrouvableMessage(id: int32): string {
    INTROUVABLE_PREFIX + IntToString(id as int) + INTROUVABLE_SUFFIX
  }

  /** Reads the id back out of a not-found message; `None` if the text does not
      have that message's shape. */
  function IdInMessage(message: string): Option<int> {
    var p, s := |INTROUVABLE_PREFIX|, |INTROUVABLE_SUFFIX|;
    if |message| >= p + s && message[..p] == INTROUVABLE_PREFIX
       && message[|message| - s..] == INTROUVABLE_SUFFIX
    then ParseInt(message[p..|message| - s])
    else None
  }

  /** The not-found message carries the id: it can be read back from the text. */
  lemma IntrouvableMessageCarriesId(id: int32)
    ensures IdInMessage(IntrouvableMessage(id)) == Some(id as int)
  {
    var t := IntToString(id as int);
    var m := IntrouvableMessage(id);
    var p, s := |INTROUVABLE_PREFIX|, |INTROUVABLE_SUFFIX|;
    assert m[..p] == INTROUVABLE_PREFIX;
    assert m[|m| - s..] == INTROUVABLE_SUFFIX;
    assert m[p..|m| - s] == t;
    IntRoundTrip(id as int);
  }

  /** Looks a product up by id; a missing product is a not-found error naming the id. */
  function AfficherUnProduit(dao: Dao, id: int32): (h: Handled<Product>)
    ensures h.calls == [FindById(id)]
    ensures h.result.Err? <==> dao.findById(id).None?
    ensures h.result.Err? ==>
      h.result.error.ProduitIntrouvable? && IdInMessage(h.result.error.message) == Some(id as int)
    ensures h.result.Ok? ==> h.result.value == dao.findById(id).value
  {
    IntrouvableMessageCarriesId(id);
    match dao.findById(id)
    case None => Handled([FindById(id)], Err(ProduitIntrouvable(IntrouvableMessage(id))))
    case Some(produit) => Handled([FindById(id)], Ok(produit))
  }

  /** Two lookups that fail for different ids report different messages. */
  lemma IntrouvableMessagesDistinguishIds(dao: Dao, id1: int32, id2: int32)
    requires dao.findById(id1).None? && dao.findById(id2).None? && id1 != id2
    ensures AfficherUnProduit(dao, id1).result.error != AfficherUnProduit(dao, id2).result.error
  {
    var e1 := AfficherUnProduit(dao, id1).result.error;
    var e2 := AfficherUnProduit(dao, id2).result.error;
    assert IdInMessage(e1.message) != IdInMessage(e2.message);
  }

  // ---------------------------------------------------------------------------
  // ajouterProduit

  const GRATUIT_MESSAGE: string := "Produit Gratuit ! Nous devons tourner l'économie"

  /** The created resource's location: the request path extended by `/{id}`. */
  function Location(requestPath: string, id: int32): string {
    requestPath + "/" + IntToString(id as int)
  }

  /** The text after the last `/` (all of it when there is none). */
  function LastSegment(s: string): string
    decreases |s|
  {
    if s == [] || s[|s| - 1] == '/' then [] else LastSegment(s[..|s| - 1]) + [s[|s| - 1]]
  }

  lemma {:induction false} LastSegmentAfterSlash(path: string, t: string)
    requires '/' !in t
    ensures LastSegment(path + "/" + t) == t
    decreases |t|
  {
    var s := path + "/" + t;
    if t == [] {
      assert s[|s| - 1] == '/';
    } else {
      var t' := t[..|t| - 1];
      assert s[..|s| - 1] == path + "/" + t';
      assert '/' !in t' by {
        forall k | 0 <= k < |t'| ensures t'[k] != '/' { assert t'[k] == t[k]; }
      }
      LastSegmentAfterSlash(path, t');
      assert t == t' + [t[|t| - 1]];
    }
  }

  /** Creates a product. A zero sale price is refused before the repository is
      touched; otherwise the product is saved and the answer depends on whether
      `save` gave a product back. */
  function AjouterProduit(dao: Dao, product: Product, requestPath: string): (h: Handled<Creation>)
    ensures h.result.Err? <==> product.prix == ZERO_EURO
    ensures product.prix == ZERO_EURO ==>
      h.calls == [] && h.result.error == ProduitGratuit(GRATUIT_MESSAGE)
    ensures product.prix != ZERO_EURO ==>
      h.calls == [Save(product)] && (h.result.value == NoContent <==> dao.save(product).None?)
  {
    if product.prix == ZERO_EURO then
      Handled([], Err(ProduitGratuit(GRATUIT_MESSAGE)))
    else
      match dao.save(product)
      case None => Handled([Save(product)], Ok(NoContent))
      case Some(productAdded) => Handled([Save(product)], Ok(Created(Location(requestPath, productAdded.id))))
  }

  /** A refused free product leaves the store unchanged. */
  lemma AjouterProduitGratuitLeavesStore(dao: Dao, product: Product, requestPath: string)
    requires product.prix == ZERO_EURO
    ensures ReadOnly(AjouterProduit(dao, product, requestPath).calls)
    ensures AjouterProduit(dao, product, requestPath).result.Err?
  {
  }

  /** When `save` answers, the response is `created` at a location under the
      request path whose last segment is the saved product's id. */
  lemma AjouterProduitLocation(dao: Dao, product: Product, requestPath: string)
    requires product.prix != ZERO_EURO && dao.save(product).Some?
    ensures var h := AjouterProduit(dao, product, requestPath);
      && h.result.Ok? && h.result.value.Created?
      && requestPath + "/" <= h.result.value.location
      && ParseInt(LastSegment(h.result.value.location)) == Some(dao.save(product).value.id as int)
  {
    var id := dao.save(product).value.id;
    LastSegmentAfterSlash(requestPath, IntToString(id as int));
    IntRoundTrip(id as int);
    assert Location(requestPath, id) == (requestPath + "/") + IntToString(id as int);
  }

  // ---------------------------------------------------------------------------
  // supprimerProduit and updateProduit

  /** Deletion is handed to the repository without any check; the handler raises
      no exception of its own. */
  function SupprimerProduit(id: int32): (h: Handled<()>)
    ensures h.calls == [Delete(id)] && h.result.Ok?
  {
    Handled([Delete(id)], Ok(()))
  }

  /** An update is a plain `save`: its answer is ignored, nothing is checked, and
      the handler raises no exception of its own. */
  function UpdateProduit(product: Product): (h: Handled<()>)
    ensures h.calls == [Save(product)] && h.result.Ok?
  {
    Handled([Save(product)], Ok(()))
  }

  /** The zero-price rule guards creation only: an update saves a free product
      that creation would refuse. */
  lemma UpdateProduitSkipsPriceRule(dao: Dao, product: Product, requestPath: string)
    requires product.prix == ZERO_EURO
    ensures Save(product) in UpdateProduit(product).calls
    ensures Save(product) !in AjouterProduit(dao, product, requestPath).calls
  {
  }

  // ---------------------------------------------------------------------------
  // calculerMargeProduit

  const AUCUN_MESSAGE: string := "Aucuns produit en magasin"

  /** A product's margin, computed in Java `int` arithmetic. */
  function Marge(p: Product): int32 {
    Sub(p.prix, p.prixAchat)
  }

  /** The margin report: every product of `findAll` mapped to its margin, or the
      no-product error when the repository gave no collection at all. */
  function MargeReport(produits: Option<seq<Product>>): Result<map<Product, int32>> {
    match produits
    case None => Err(AucunProduitEnMagasin(AUCUN_MESSAGE))
    case Some(ps) => Ok(map p | p in ps :: Marge(p))
  }

  /** Builds the margin report by filling a map one product at a time. */
  method CalculerMargeProduit(dao: Dao) returns (h: Handled<map<Product, int32>>)
    ensures h.calls == [FindAll]
    ensures h.result == MargeReport(dao.findAll)
    ensures h.result.Ok? ==> |h.result.value| <= |dao.findAll.value|
  {
    var produits := dao.findAll;
    var listMargeProduits: map<Product, int32> := map[];
    if produits.None? {
      return Handled([FindAll], Err(AucunProduitEnMagasin(AUCUN_MESSAGE)));
    }
    var ps := produits.value;
    for i := 0 to |ps|
      invariant listMargeProduits == map p | p in ps[..i] :: Marge(p)
      invariant |listMargeProduits| <= i
    {
      var margePrix := Sub(ps[i].prix, ps[i].prixAchat);
      assert ps[..i + 1] == ps[..i] + [ps[i]];
      listMargeProduits := listMargeProduits[ps[i] := margePrix];
    }
    assert ps[..|ps|] == ps;
    h := Handled([FindAll], Ok(listMargeProduits));
  }

  /** Only an absent collection is an error; an empty one gives an empty report.
      Otherwise the keys are exactly the products and each maps to its margin,
      which is `prix - prixAchat` whenever that fits in an `int`. */
  lemma MargeReportCharacterised(produits: Option<seq<Product>>)
    ensures MargeReport(produits).Err? <==> produits.None?
    ensures produits == Some([]) ==> MargeReport(produits) == Ok(map[])
    ensures produits.Some? ==> forall p ::
      (p in MargeReport(produits).value <==> p in produits.value)
      && (p in produits.value && InRange(p.prix as int - p.prixAchat as int) ==>
          MargeReport(produits).value[p] as int == p.prix as int - p.prixAchat as int)
  {
  }

  /** Margins are not required to be positive. */
  lemma MargesMayBeNegative()
    ensures var p := Product(1, "Laptop", 1000, 700); MargeReport(Some([p])) == Ok(map[p := 300])
    ensures var p := Product(2, "Cable", 50, 70); MargeReport(Some([p])) == Ok(map[p := -20])
  {
    var p1 := Product(1, "Laptop", 1000, 700);
    var p2 := Product(2, "Cable", 50, 70);
    assert (map p | p in [p1] :: Marge(p)) == map[p1 := 300];
    assert (map p | p in [p2] :: Marge(p)) == map[p2 := -20];
  }

  /** The report does not depend on the order `findAll` iterates in. */
  lemma MargeReportOrderIndependent(ps: seq<Product>, qs: seq<Product>)
    requires multiset(ps) == multiset(qs)
    ensures MargeReport(Some(ps)) == MargeReport(Some(qs))
  {
    forall p ensures p in ps <==> p in qs {
      assert p in ps <==> p in multiset(ps);
      assert p in qs <==> p in multiset(qs);
    }
    var m1 := map p | p in ps :: Marge(p);
    var m2 := map p | p in qs :: Marge(p);
    assert m1.Keys == m2.Keys;
    assert m1 == m2;
  }

  predicate DistinctIds(ps: seq<Product>) {
    forall i, j :: 0 <= i < j < |ps| ==> ps[i].id != ps[j].id
  }

  lemma {:induction false} ElementsSize(ps: seq<Product>)
    ensures |set p | p in ps| <= |ps|
    ensures DistinctIds(ps) ==> |set p | p in ps| == |ps|
  {
    if ps != [] {
      var rest := ps[1..];
      ElementsSize(rest);
      assert (set p | p in ps) == {ps[0]} + (set p | p in rest);
      if DistinctIds(ps) {
        assert DistinctIds(rest) by {
          forall i, j | 0 <= i < j < |rest| ensures rest[i].id != rest[j].id {
            assert rest[i] == ps[i + 1] && rest[j] == ps[j + 1];
          }
        }
        assert ps[0] !in rest by {
          forall k | 0 <= k < |rest| ensures rest[k] != ps[0] {
            assert rest[k] == ps[k + 1];
          }
        }
      }
    }
  }

  /** A repeated product is put twice into the map, so the report has at most
      one entry per product; when the ids are distinct it has exactly one. */
  lemma MargeReportSize(ps: seq<Product>)
    ensures |MargeReport(Some(ps)).value| <= |ps|
    ensures DistinctIds(ps) ==> |MargeReport(Some(ps)).value| == |ps|
  {
    var m := MargeReport(Some(ps)).value;
    assert m.Keys == set p | p in ps;
    ElementsSize(ps);
  }

  // ---------------------------------------------------------------------------
  // testeDeRequetes

  /** The test endpoint queries with the fixed threshold, whatever its argument. */
  function TesteDeRequetes(dao: Dao, prix: int32): (h: Handled<seq<Product>>)
    ensures h.calls == [ChercherUnProduitCher(TEST_PRIX_LIMIT)]
    ensures h.result == Ok(dao.chercherUnProduitCher(TEST_PRIX_LIMIT))
  {
    Handled([ChercherUnProduitCher(TEST_PRIX_LIMIT)], Ok(dao.chercherUnProduitCher(TEST_PRIX_LIMIT)))
  }

  lemma TesteDeRequetesIgnoresPrix(dao: Dao, prix1: int32, prix2: int32)
    ensures TesteDeRequetes(dao, prix1) == TesteDeRequetes(dao, prix2)
  {
  }

  /** The handlers that only read issue no call that can change the store. */
  lemma ReadHandlersLeaveStore(dao: Dao, id: int32, prix: int32)
    ensures ReadOnly(ListeProduits(dao).calls)
    ensures ReadOnly(AfficherUnProduit(dao, id).calls)
    ensures ReadOnly(TesteDeRequetes(dao, prix).calls)
  {
  }

}

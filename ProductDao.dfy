/** The repository the controller delegates to. Its implementation is generated
    by the persistence framework and is not part of this model: a `Dao` value is
    just the answers it gives during one request, and a `DaoCall` records a
    request the controller makes of it. */
module ProductDao {
  import opened Wrappers
  import opened Int32
  import opened Product

  /** What each repository query answers. `findAll` is an `Iterable` that the
      controller null-checks, so it may be absent; the other queries are used as
      they come back. */
  datatype Dao = Dao(
    findAll: Option<seq<Product>>,
    findAllByOrderByNomAsc: seq<Product>,
    findById: int32 -> Option<Product>,
    save: Product -> Option<Product>,
    chercherUnProduitCher: int32 -> seq<Product>)

  datatype DaoCall =
    | FindAll
    | FindAllByOrderByNomAsc
    | FindById(id: int32)
    | Save(product: Product)
    | Delete(id: int32)
    | ChercherUnProduitCher(prixLimit: int32)

  /** The calls that may change the stored products. */
  predicate Mutates(c: DaoCall) {
    c.Save? || c.Delete?
  }

  /** A sequence of calls that leaves the store as it was. */
  predicate ReadOnly(calls: seq<DaoCall>) {
    forall i :: 0 <= i < |calls| ==> !Mutates(calls[i])
  }

}

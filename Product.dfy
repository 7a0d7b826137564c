/** The catalog entity and the view of it that the product list serialises. */
module Product {
  import opened Int32

  /** A product as the controller receives it from requests and from the DAO:
      its id, name (`nom`), sale price (`prix`) and purchase price (`prixAchat`). */
  datatype Product = Product(id: int32, nom: string, prix: int32, prixAchat: int32)

  /** What the list endpoint serialises of a product: every property except
      `prixAchat`, which its property filter leaves out. */
  datatype ProductView = ProductView(id: int32, nom: string, prix: int32)

  function Project(p: Product): (v: ProductView)
    ensures v.id == p.id && v.nom == p.nom && v.prix == p.prix
  {
    ProductView(p.id, p.nom, p.prix)
  }

  /** Puts a purchase price back into a view. */
  function WithPrixAchat(v: ProductView, prixAchat: int32): Product {
    Product(v.id, v.nom, v.prix, prixAchat)
  }

  /** The filter drops `prixAchat` and nothing else: giving it back restores the product. */
  lemma ProjectDropsOnlyPrixAchat(p: Product)
    ensures WithPrixAchat(Project(p), p.prixAchat) == p
  {
  }

  /** The projection of a whole list, element by element, in order. */
  function ProjectAll(ps: seq<Product>): (vs: seq<ProductView>)
    ensures |vs| == |ps|
    ensures forall i :: 0 <= i < |ps| ==> vs[i] == Project(ps[i])
  {
    if ps == [] then [] else [Project(ps[0])] + ProjectAll(ps[1..])
  }

  /** Lexicographic order on names, character by character. The repository
      sorts by the database's collation, which this order only stands in for;
      the properties proved about the list hold for any order on names, since
      the projection keeps every name at its index. */
  predicate NomLe(a: string, b: string) {
    a == [] || (b != [] && (a[0] < b[0] || (a[0] == b[0] && NomLe(a[1..], b[1..]))))
  }

  predicate NomsSorted(noms: seq<string>) {
    forall i, j :: 0 <= i < j < |noms| ==> NomLe(noms[i], noms[j])
  }

  /** The names of a list of products, in order. */
  function Noms(ps: seq<Product>): seq<string> {
    seq(|ps|, i requires 0 <= i < |ps| => ps[i].nom)
  }

  /** The names of a list of views, in order. */
  function ViewNoms(vs: seq<ProductView>): seq<string> {
    seq(|vs|, i requires 0 <= i < |vs| => vs[i].nom)
  }

}

/** The fixture constants of `src/lib/data.ts`. */
module Fixtures {
  import opened Wrappers
  import opened Types
  import Lists

  const InitialBoqItems: seq<BoqItem> := [
    BoqItem("1", "Site clearance and removal of vegetation", "sq.m", 150.0, 15.50),
    BoqItem("2", "Excavation of existing drainage channel", "cu.m", 75.0, 55.00),
    BoqItem("3", "Supply and lay 150mm diameter perforated drainage pipe", "m", 200.0, 45.75),
    BoqItem("4", "Backfilling with approved granular material", "cu.m", 80.0, 85.20)
  ]

  /** An entry of the placeholder image catalogue the map points are built
      from. */
  datatype Placeholder = Placeholder(id: string, description: string, imageUrl: string, imageHint: string)

  /** A catalogue entry as map-point data: its description doubles as the
      title. */
  function ToMapPointData(p: Placeholder): (d: MapPointData)
    ensures d.id == p.id && d.title == p.description && d.description == p.description
    ensures d.image == ImageRef(p.imageUrl, p.imageHint)
  {
    MapPointData(p.id, p.description, p.description, ImageRef(p.imageUrl, p.imageHint))
  }

  /** `k` is the index of the first catalogue entry whose id is `id`. */
  predicate FirstWithId(catalogue: seq<Placeholder>, id: string, k: int)
  {
    0 <= k < |catalogue| && catalogue[k].id == id && forall j :: 0 <= j < k ==> catalogue[j].id != id
  }

  /** `catalogue.map(ToMapPointData).find(d => d.id === id)`: the first
      entry with the id, or nothing when there is none. */
  function Find(catalogue: seq<Placeholder>, id: string): (r: Option<MapPointData>)
    ensures r.Some? ==> exists k :: FirstWithId(catalogue, id, k) && r.value == ToMapPointData(catalogue[k])
    ensures r.None? <==> forall p :: p in catalogue ==> p.id != id
  {
    if catalogue == [] then None
    else if catalogue[0].id == id then
      assert FirstWithId(catalogue, id, 0);
      Some(ToMapPointData(catalogue[0]))
    else
      var r := Find(catalogue[1..], id);
      if r.None? then None
      else
        var k :| FirstWithId(catalogue[1..], id, k) && r.value == ToMapPointData(catalogue[1..][k]);
        assert FirstWithId(catalogue, id, k + 1);
        r
  }

  /** `{ ...d, position: pos }`: the data's fields and the given position. */
  function Placed(d: MapPointData, pos: Position): (p: MapPoint)
    ensures p.id == d.id && p.title == d.title && p.description == d.description
    ensures p.image == d.image && p.position == pos
  {
    MapPoint(d.id, d.title, d.description, d.image, pos)
  }

  /** `p` carries the title, description and image of the first catalogue
      entry with its id. */
  ghost predicate FromCatalogue(catalogue: seq<Placeholder>, p: MapPoint)
  {
    exists k :: FirstWithId(catalogue, p.id, k) &&
      p.title == catalogue[k].description && p.description == catalogue[k].description &&
      p.image == ImageRef(catalogue[k].imageUrl, catalogue[k].imageHint)
  }

  /** One map point: the catalogue entry `id`, placed at `pos`. */
  function Point(catalogue: seq<Placeholder>, id: string, pos: Position): (p: MapPoint)
    requires Find(catalogue, id).Some?
    ensures p.id == id && p.position == pos
    ensures FromCatalogue(catalogue, p)
  {
    Placed(Find(catalogue, id).value, pos)
  }

  /** The three map points the image manager starts from. The program
      asserts with `!` that the catalogue holds each id. */
  function MapPoints(catalogue: seq<Placeholder>): (r: seq<MapPoint>)
    requires Find(catalogue, "map-point-1").Some?
    requires Find(catalogue, "map-point-2").Some?
    requires Find(catalogue, "map-point-3").Some?
    ensures |r| == 3 && Lists.DistinctKeys(r, MapPointId)
    ensures r[0].id == "map-point-1" && r[0].position == Position(51.518, -0.095)
    ensures r[1].id == "map-point-2" && r[1].position == Position(51.512, -0.088)
    ensures r[2].id == "map-point-3" && r[2].position == Position(51.516, -0.082)
    ensures FromCatalogue(catalogue, r[0]) && FromCatalogue(catalogue, r[1]) && FromCatalogue(catalogue, r[2])
  {
    [ Point(catalogue, "map-point-1", Position(51.518, -0.095)),
      Point(catalogue, "map-point-2", Position(51.512, -0.088)),
      Point(catalogue, "map-point-3", Position(51.516, -0.082)) ]
  }
}

/** The records of `src/lib/types.ts`. */
module Types {

  /** A Bill of Quantities line. Its amount, quantity × rate, is always
      derived and never stored. */
  datatype BoqItem = BoqItem(id: string, description: string, unit: string, quantity: real, rate: real)

  datatype ImageRef = ImageRef(url: string, hint: string)

  datatype Position = Position(lat: real, lng: real)

  /** A gallery image without its map position. */
  datatype MapPointData = MapPointData(id: string, title: string, description: string, image: ImageRef)

  /** A gallery image placed on the map. */
  datatype MapPoint = MapPoint(id: string, title: string, description: string, image: ImageRef, position: Position)

  function BoqId(item: BoqItem): string { item.id }

  function MapPointId(p: MapPoint): string { p.id }
}

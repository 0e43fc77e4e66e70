/** The car listing as both vehicle screens see it, and the car mutations
    they ask the data layer to perform. */
module CarTypes {
  import opened Js

  datatype CarImage = CarImage(id: string, imageUrl: string)

  /** The fields of a `Car` the screens' logic reads. */
  datatype Car = Car(
    id: string,
    status: string,
    isFeatured: bool,
    primaryImage: Option<CarImage>,
    images: Option<seq<CarImage>>)

  /** One call to a `useCars` mutation, with its arguments. */
  datatype CarRequest =
    | DeleteCar(id: string)
    | ApproveCar(id: string)
    | RejectCar(id: string, reason: string)
    | FeatureCar(id: string)
    | UnfeatureCar(id: string)

  /** The listing status that offers moderation. */
  const Pending: string := "pending"

  /** The request a feature toggle sends: unfeature a featured car, feature
      any other. */
  function ToggleFeatureRequest(isFeatured: bool, id: string): (r: CarRequest)
    ensures r.id == id
    ensures r.UnfeatureCar? <==> isFeatured
    ensures r.FeatureCar? <==> !isFeatured
  {
    if isFeatured then UnfeatureCar(id) else FeatureCar(id)
  }
}

/** `new Intensity(...)`, its guards, and `updateUpdateAt`. */
module IntensityModel {
  import opened Js
  import opened Entities

  /** The object passed to the `Intensity` constructor; a missing property is `None`. */
  datatype IntensityInput = IntensityInput(id: Option<int>, intensity: Option<string>, order: Option<int>)

  /** `Intensity.validate`: the label is checked before the order, and the order only for
      being falsy (missing or zero; a negative order passes). */
  function Validate(input: IntensityInput): (r: Option<string>)
    ensures r.None? <==> StringTruthy(input.intensity) && NumberTruthy(input.order)
    ensures !StringTruthy(input.intensity) ==> r == Some("Intensity is required.")
    ensures StringTruthy(input.intensity) && !NumberTruthy(input.order) ==> r == Some("Order is required.")
  {
    if !StringTruthy(input.intensity) || input.intensity == Some("") then Some("Intensity is required.")
    else if !NumberTruthy(input.order) then Some("Order is required.")
    else None
  }

  /** `new Intensity(input)`, where `now` is the `Date` object created for `createdAt`. */
  function NewIntensity(input: IntensityInput, now: Stamp): (r: Result<Intensity>)
    ensures r.Ok? <==> Validate(input).None?
    ensures r.Err? ==> Some(r.message) == Validate(input)
    ensures r.Ok? ==> (r.value.id == input.id && r.value.intensity == input.intensity.value
                       && r.value.order == input.order.value)
    ensures r.Ok? ==> r.value.games == [] && r.value.createdAt == now && r.value.updatedAt == Null
  {
    match Validate(input)
    case Some(message) => Err(message)
    case None => Ok(Intensity(input.id, input.intensity.value, input.order.value, [], now, Null))
  }

  /** `updateUpdateAt()`: `updatedAt` becomes the `Date` object `now`; nothing else changes. */
  function UpdateUpdateAt(i: Intensity, now: Stamp): (r: Intensity)
    ensures r.updatedAt == Date(now)
    ensures r.id == i.id && r.intensity == i.intensity && r.order == i.order
    ensures r.games == i.games && r.createdAt == i.createdAt
  {
    i.(updatedAt := Date(now))
  }

  /** An update with a new `Date` object is visible to `equals`: the intensity before the
      update no longer equals the one after it, though both still equal themselves. */
  lemma UpdateIsObservable(i: Intensity, now: Stamp)
    requires i.updatedAt != Date(now)
    ensures IntensityEquals(i, UpdateUpdateAt(i, now)) == Ok(false)
    ensures IntensityEquals(UpdateUpdateAt(i, now), UpdateUpdateAt(i, now)) == Ok(true)
  {
    GamesEveryReflexive(i.games);
    IntensityEqualsReflexive(UpdateUpdateAt(i, now));
  }

  /** A freshly constructed intensity, once updated, compares unequal to its former self. */
  lemma UpdatedNewIntensityDiffers(input: IntensityInput, created: Stamp, now: Stamp)
    requires NewIntensity(input, created).Ok?
    ensures IntensityEquals(NewIntensity(input, created).value,
                            UpdateUpdateAt(NewIntensity(input, created).value, now)) == Ok(false)
  {
  }
}

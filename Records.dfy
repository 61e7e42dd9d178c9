/** The rows the dashboard works on. Dates are day numbers; amounts and coordinates are
    exact reals rather than floating-point values. */
module Records {

  datatype Option<T> = None | Some(value: T)

  /** One row of the sales file, as far as the pipeline reads it. */
  datatype SalesRow = SalesRow(orderDate: int, city: string, country: string, sales: real)

  /** One row of the world-cities table; a coordinate may be missing (NaN in the file). */
  datatype CityRow = CityRow(city: string, country: string, lat: Option<real>, lng: Option<real>)

  /** A geocoded sales record: a sales row joined with the coordinates of its city. */
  datatype Record = Record(
    orderDate: int,
    city: string,
    country: string,
    latitude: real,
    longitude: real,
    sales: real)
}

/** The one piece of static reference data the cost model reads. */
module DummyData {

  /** Kilograms of CO2 per litre of fuel (for electric: per kWh, used as a per-litre equivalent). */
  const EmissionFactors: map<string, real> :=
    map["diesel" := 2.68, "gasoline" := 2.31, "cng" := 1.94, "electric" := 0.5]
}

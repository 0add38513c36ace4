/** Candidate records of the SAW engine: one parsed CSV row, the car record it
    becomes, and the five scoring criteria with their PHP array keys. */
module Cars {

  /** One data row of the uploaded CSV file, by position, after the cells that
      the loader reads as numbers have been read as numbers. */
  datatype Row = Row(
    brand: string,         // column 0
    model: string,         // column 1
    year: string,          // column 2
    engineSize: real,      // column 3, read with floatval
    fuelType: string,      // column 4
    transmission: string,  // column 5
    mileage: real,         // column 6, read with floatval
    doors: real,           // column 7, read with intval
    ownerCount: real,      // column 8, read with intval
    price: real            // column 9, read with floatval
  )

  /** A candidate car. The text fields identify it and never enter the score. */
  datatype Car = Car(
    brand: string,
    model: string,
    year: string,
    engineSize: real,
    fuelType: string,
    transmission: string,
    mileage: real,
    doors: int,
    ownerCount: int,
    price: real
  )

  /** The five criteria, in the order in which the engine scans them. */
  datatype Criterion = EngineSize | Mileage | Doors | OwnerCount | Price
  {
    /** The key under which the criterion's weight is stored. */
    function Name(): string {
      match this
      case EngineSize => "Engine_Size"
      case Mileage => "Mileage"
      case Doors => "Doors"
      case OwnerCount => "Owner_Count"
      case Price => "Price"
    }

    /** Doors is the one benefit criterion (more is better); the others are costs. */
    predicate IsBenefit() {
      this == Doors
    }

    /** The criterion's raw value in a car. */
    function Raw(car: Car): real {
      match this
      case EngineSize => car.engineSize
      case Mileage => car.mileage
      case Doors => car.doors as real
      case OwnerCount => car.ownerCount as real
      case Price => car.price
    }
  }

  const Criteria: seq<Criterion> := [EngineSize, Mileage, Doors, OwnerCount, Price]

  /** Every criterion occurs in Criteria exactly once, and the names are distinct. */
  lemma CriteriaEnumerated()
    ensures forall c: Criterion :: c in Criteria
    ensures forall i, j :: 0 <= i < j < |Criteria| ==> Criteria[i] != Criteria[j]
    ensures forall c: Criterion, d: Criterion :: c != d ==> c.Name() != d.Name()
  {
    forall c: Criterion ensures c in Criteria {
      match c
      case EngineSize => assert Criteria[0] == c;
      case Mileage => assert Criteria[1] == c;
      case Doors => assert Criteria[2] == c;
      case OwnerCount => assert Criteria[3] == c;
      case Price => assert Criteria[4] == c;
    }
    forall c: Criterion, d: Criterion | c != d ensures c.Name() != d.Name() {
      match c
      case EngineSize => assert c.Name()[0] == 'E';
      case Mileage => assert c.Name()[0] == 'M';
      case Doors => assert c.Name()[0] == 'D';
      case OwnerCount => assert c.Name()[0] == 'O';
      case Price => assert c.Name()[0] == 'P';
    }
  }

  /** PHP's intval on a float: truncation toward zero. */
  function TruncateToInt(x: real): (r: int)
    ensures 0.0 <= x ==> 0 <= r && r as real <= x < r as real + 1.0
    ensures x < 0.0 ==> r <= 0 && r as real - 1.0 < x <= r as real
  {
    if x >= 0.0 then x.Floor else -((-x).Floor)
  }

  /** The record readCSV builds from one row. */
  function ToCar(row: Row): (car: Car)
    ensures car.brand == row.brand && car.model == row.model && car.year == row.year
    ensures car.fuelType == row.fuelType && car.transmission == row.transmission
    ensures car.engineSize == row.engineSize && car.mileage == row.mileage && car.price == row.price
    ensures car.doors == TruncateToInt(row.doors) && car.ownerCount == TruncateToInt(row.ownerCount)
  {
    Car(row.brand, row.model, row.year, row.engineSize, row.fuelType, row.transmission,
        row.mileage, TruncateToInt(row.doors), TruncateToInt(row.ownerCount), row.price)
  }

  /** readCSV's loop: one record per row, in row order. */
  method ReadCSV(rows: seq<Row>) returns (data: seq<Car>)
    ensures |data| == |rows|
    ensures forall i :: 0 <= i < |rows| ==> data[i] == ToCar(rows[i])
  {
    data := [];
    var i := 0;
    while i < |rows|
      invariant 0 <= i <= |rows|
      invariant |data| == i
      invariant forall k :: 0 <= k < i ==> data[k] == ToCar(rows[k])
    {
      data := data + [ToCar(rows[i])];
      i := i + 1;
    }
  }

  /** A record read from a row with non-negative numeric cells has non-negative
      criteria, and integral cells survive intval unchanged. */
  lemma ToCarNonNegative(row: Row, c: Criterion)
    requires row.engineSize >= 0.0 && row.mileage >= 0.0 && row.price >= 0.0
    requires row.doors >= 0.0 && row.ownerCount >= 0.0
    ensures c.Raw(ToCar(row)) >= 0.0
    ensures row.doors == row.doors.Floor as real ==> ToCar(row).doors as real == row.doors
  {
  }
}

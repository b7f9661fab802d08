/** Customers: records `{name, email}` in `customers.json`, keyed by customer id. */
module Customers {
  import opened RecordStore
  import opened Files

  class Customer {
    const customerId: string
    const name: string
    const email: string

    constructor (customerId: string, name: string, email: string)
      ensures this.customerId == customerId && this.name == name && this.email == email
    {
      this.customerId := customerId;
      this.name := name;
      this.email := email;
    }

    /** The fields this customer is stored with. */
    function Record(): (r: CustomerRecord)
    {
      CustomerRecord(name, email)
    }

    /** Creates `customers.json` as `{}` if it does not exist, then inserts or
        overwrites this customer's entry and writes the mapping back. */
    method Save(d: Disk)
      modifies d`customers, d`log
      ensures d.customers == Some(Put(Load(old(d.customers)), customerId, Record()))
      ensures d.log == old(d.log) + (if old(d.customers).None? then [CustomersJson] else []) + [CustomersJson]
    {
      if d.customers.None? {
        d.WriteCustomers(map[]);
      }
      var customers := d.customers.value;
      customers := customers[customerId := Record()];
      d.WriteCustomers(customers);
    }

    /** Removes the entry for `customerId`. Nothing is written when the file does not
        exist or holds no such customer. */
    static method Delete(d: Disk, customerId: string)
      modifies d`customers, d`log
      ensures d.customers == Remove(old(d.customers), customerId)
      ensures d.log == old(d.log) + (if Removes(old(d.customers), customerId) then [CustomersJson] else [])
    {
      if d.customers.None? {
        return;
      }
      var customers := d.customers.value;
      if customerId in customers {
        customers := customers - {customerId};
        d.WriteCustomers(customers);
      }
    }

    /** Every stored customer; `{}` when the file does not exist. */
    static method GetAllCustomers(d: Disk) returns (r: Store<CustomerRecord>)
      ensures d.customers.None? ==> r == map[]
      ensures d.customers.Some? ==> r == d.customers.value
    {
      if d.customers.None? {
        return map[];
      }
      r := d.customers.value;
    }
  }

  /** Saving the same customer twice leaves `customers.json` as one save does. */
  method SaveTwice(d: Disk, c: Customer)
    modifies d`customers, d`log
    ensures d.customers == Some(Put(Load(old(d.customers)), c.customerId, c.Record()))
  {
    c.Save(d);
    c.Save(d);
    PutIdempotent(Load(old(d.customers)), c.customerId, c.Record());
  }
}

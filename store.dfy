/** The in-memory product store behind the `/produtos` routes: an array of
    slots, seeded with one record, that create appends to, update overwrites
    in place and delete punches holes into without ever shrinking it. */
module Store {
  import opened Js
  import opened Validation

  /** A stored record. The fields keep whatever the request sent, except the
      price, which create and update store as its two-decimal text. */
  datatype Product = Product(id: int, nome: Value, preco: Value, descricao: Value)

  /** An array slot: a record, or the hole `delete produtos[i]` leaves. */
  datatype Slot = Live(product: Product) | Hole

  /** What a handler sends: plain text, or JSON (a record, a list of records,
      or a JSON string). */
  datatype Payload =
    | PlainText(text: string)
    | JsonProduct(product: Product)
    | JsonProducts(products: seq<Product>)
    | JsonString(text: string)

  /** A handler's outcome: an answer, or the TypeError that escapes update
      when the body has no `nome`. */
  datatype Reply = Reply(status: nat, payload: Payload) | ThrewTypeError

  /** The record the store starts with. */
  const Seed := Product(1, Str("notebook"), Number(2499.0), Str("Notebook Inspiron 15"))

  const DeletedText := "Item deletado com sucesso."

  function NotFoundText(id: string): string {
    "Produto com ID " + id + " não encontrado."
  }

  function UpdatedText(id: string): string {
    "Produto ID " + id + " atualizado com sucesso"
  }

  /** The store's invariant: the record in slot i carries id i + 1. */
  predicate PositionalIds(slots: seq<Slot>) {
    forall i :: 0 <= i < |slots| && slots[i].Live? ==> slots[i].product.id == i + 1
  }

  /** The `findIndex` test of update and delete: a live slot whose id is
      strictly equal to `parseInt(id)` (NaN equals nothing). */
  predicate Matches(slot: Slot, pid: ParsedInt) {
    slot.Live? && pid.Int? && slot.product.id == pid.value
  }

  /** `findIndex` answers -1. */
  predicate NoMatch(slots: seq<Slot>, pid: ParsedInt) {
    forall j :: 0 <= j < |slots| ==> !Matches(slots[j], pid)
  }

  /** The id names a live record; under PositionalIds it sits in slot id - 1. */
  predicate Present(slots: seq<Slot>, pid: ParsedInt) {
    pid.Int? && 1 <= pid.value <= |slots| && slots[pid.value - 1].Live?
  }

  /** Under the invariant, live ids are unique: the only slot a lookup can
      find is slot id - 1, and it finds one exactly when the id is present. */
  lemma MatchIsPositional(slots: seq<Slot>, pid: ParsedInt)
    requires PositionalIds(slots)
    ensures forall j :: 0 <= j < |slots| && Matches(slots[j], pid) ==> j == pid.value - 1
    ensures Present(slots, pid) <==> exists j :: 0 <= j < |slots| && Matches(slots[j], pid)
  {
    if Present(slots, pid) {
      assert Matches(slots[pid.value - 1], pid);
    }
  }

  /** The records `produtos.filter(prod => prod)` keeps, in slot order. */
  function LiveProducts(slots: seq<Slot>): (ps: seq<Product>)
    ensures |ps| <= |slots|
  {
    if slots == [] then []
    else
      var last := slots[|slots| - 1];
      assert slots == slots[..|slots| - 1] + [last];
      LiveProducts(slots[..|slots| - 1]) + (if last.Live? then [last.product] else [])
  }

  /** A record is listed exactly when some slot holds it: nothing live is
      dropped and no hole is surfaced. */
  lemma {:induction false} ListedIffLive(slots: seq<Slot>, p: Product)
    ensures p in LiveProducts(slots) <==> Live(p) in slots
  {
    if slots != [] {
      var init := slots[..|slots| - 1];
      ListedIffLive(init, p);
      assert slots == init + [slots[|slots| - 1]];
    }
  }

  lemma {:induction false} LiveProductsConcat(a: seq<Slot>, b: seq<Slot>)
    ensures LiveProducts(a + b) == LiveProducts(a) + LiveProducts(b)
  {
    if b != [] {
      var b' := b[..|b| - 1];
      assert (a + b)[..|a + b| - 1] == a + b';
      LiveProductsConcat(a, b');
    } else {
      assert a + b == a;
    }
  }

  /** Writing one slot changes the listing only at that slot's place: what
      the slots before and after it list is kept, in order. */
  lemma ListAfterWrite(slots: seq<Slot>, i: nat, x: Slot)
    requires i < |slots|
    ensures LiveProducts(slots) ==
              LiveProducts(slots[..i]) + LiveProducts([slots[i]]) + LiveProducts(slots[i + 1..])
    ensures LiveProducts(slots[i := x]) ==
              LiveProducts(slots[..i]) + LiveProducts([x]) + LiveProducts(slots[i + 1..])
  {
    assert slots == slots[..i] + [slots[i]] + slots[i + 1..];
    assert slots[i := x] == slots[..i] + [x] + slots[i + 1..];
    LiveProductsConcat(slots[..i] + [slots[i]], slots[i + 1..]);
    LiveProductsConcat(slots[..i], [slots[i]]);
    LiveProductsConcat(slots[..i] + [x], slots[i + 1..]);
    LiveProductsConcat(slots[..i], [x]);
  }

  predicate IdsWithin(ps: seq<Product>, n: nat) {
    forall k :: 0 <= k < |ps| ==> 1 <= ps[k].id <= n
  }

  predicate IdsIncreasing(ps: seq<Product>) {
    forall k, l :: 0 <= k < l < |ps| ==> ps[k].id < ps[l].id
  }

  /** A listing is in strictly increasing id order, every id between 1 and
      the number of slots. */
  lemma {:induction false} ListedIdsIncrease(slots: seq<Slot>)
    requires PositionalIds(slots)
    ensures IdsWithin(LiveProducts(slots), |slots|)
    ensures IdsIncreasing(LiveProducts(slots))
  {
    if slots != [] {
      var init := slots[..|slots| - 1];
      var last := slots[|slots| - 1];
      assert PositionalIds(init);
      ListedIdsIncrease(init);
      var ps0 := LiveProducts(init);
      var ps := LiveProducts(slots);
      assert ps == ps0 + (if last.Live? then [last.product] else []);
      if last.Live? {
        assert ps[|ps| - 1].id == |slots|;
        forall k | 0 <= k < |ps|
          ensures 1 <= ps[k].id <= |slots|
        {
          if k < |ps0| {
            assert ps[k] == ps0[k];
          }
        }
        forall k, l | 0 <= k < l < |ps|
          ensures ps[k].id < ps[l].id
        {
          assert ps[k] == ps0[k];
          if l < |ps0| {
            assert ps[l] == ps0[l];
          }
        }
      } else {
        assert ps == ps0;
      }
    }
  }

  /** With no hole in the store, the listing is every record, the k-th one
      carrying id k + 1. */
  lemma {:induction false} ListWithoutHoles(slots: seq<Slot>)
    requires PositionalIds(slots)
    requires forall i :: 0 <= i < |slots| ==> slots[i].Live?
    ensures |LiveProducts(slots)| == |slots|
    ensures forall k :: 0 <= k < |slots| ==> LiveProducts(slots)[k].id == k + 1
  {
    if slots != [] {
      var init := slots[..|slots| - 1];
      ListWithoutHoles(init);
    }
  }

  /** The id create hands out, the number of slots plus one, belongs to no
      live record: holes keep the array's length, so deleting never lets an
      id come round again. */
  lemma CreatedIdIsFresh(slots: seq<Slot>, p: Product)
    requires PositionalIds(slots) && p.id == |slots| + 1
    ensures forall q :: q in LiveProducts(slots) ==> q.id != p.id
    ensures PositionalIds(slots + [Live(p)])
  {
    ListedIdsIncrease(slots);
  }

  lemma LiveProductsOfOne(x: Slot)
    ensures LiveProducts([x]) == if x.Live? then [x.product] else []
  {
    assert [x][..0] == [];
  }

  /** Turning a live slot into a hole takes exactly its record out of the
      listing and keeps the rest in order. */
  lemma DeleteRemovesFromListing(slots: seq<Slot>, i: nat)
    requires i < |slots| && slots[i].Live?
    ensures LiveProducts(slots) ==
              LiveProducts(slots[..i]) + [slots[i].product] + LiveProducts(slots[i + 1..])
    ensures LiveProducts(slots[i := Hole]) == LiveProducts(slots[..i]) + LiveProducts(slots[i + 1..])
  {
    ListAfterWrite(slots, i, Hole);
    LiveProductsOfOne(slots[i]);
    LiveProductsOfOne(Hole);
    var before := LiveProducts(slots[..i]);
    assert before + LiveProducts([Hole]) == before;
  }

  /** Overwriting a slot with a record puts that record at the slot's place
      in the listing, whatever was there before. */
  lemma UpdateReplacesInListing(slots: seq<Slot>, i: nat, p: Product)
    requires i < |slots|
    ensures LiveProducts(slots[i := Live(p)]) ==
              LiveProducts(slots[..i]) + [p] + LiveProducts(slots[i + 1..])
  {
    ListAfterWrite(slots, i, Live(p));
    LiveProductsOfOne(Live(p));
  }

  /** Once the slot of a present id is a hole, no slot matches the id any
      more, so a second delete of it answers 404. */
  lemma SecondDeleteMisses(slots: seq<Slot>, pid: ParsedInt)
    requires PositionalIds(slots) && Present(slots, pid)
    ensures PositionalIds(slots[pid.value - 1 := Hole])
    ensures NoMatch(slots[pid.value - 1 := Hole], pid)
  {
    var after := slots[pid.value - 1 := Hole];
    assert PositionalIds(after);
    MatchIsPositional(after, pid);
  }

  /** The array of products and the handlers that read and change it. */
  class ProductStore {
    var slots: seq<Slot>
    /** `parseFloat(v).toFixed(2)`, which the model leaves uninterpreted. */
    const toFixed2: Value -> string

    ghost predicate Valid()
      reads this
    {
      PositionalIds(slots)
    }

    constructor (toFixed2: Value -> string)
      ensures Valid()
      ensures slots == [Live(Seed)] && this.toFixed2 == toFixed2
    {
      slots := [Live(Seed)];
      this.toFixed2 := toFixed2;
    }

    /** `produtos.findIndex(...)`: the first slot whose live record has the
        id, or -1. */
    method FindIndex(pid: ParsedInt) returns (index: int)
      ensures -1 <= index < |slots|
      ensures 0 <= index ==> Matches(slots[index], pid)
      ensures forall j :: 0 <= j < |slots| && (index < 0 || j < index) ==> !Matches(slots[j], pid)
    {
      var i := 0;
      while i < |slots|
        invariant 0 <= i <= |slots|
        invariant forall j :: 0 <= j < i ==> !Matches(slots[j], pid)
      {
        if slots[i].Live? && pid.Int? && slots[i].product.id == pid.value {
          return i;
        }
        i := i + 1;
      }
      return -1;
    }

    /** GET /produtos: the live records in slot order. */
    method List() returns (reply: Reply)
      ensures reply == Reply(200, JsonProducts(LiveProducts(slots)))
    {
      var live: seq<Product> := [];
      var i := 0;
      while i < |slots|
        invariant 0 <= i <= |slots|
        invariant live == LiveProducts(slots[..i])
      {
        assert slots[..i + 1][..i] == slots[..i];
        if slots[i].Live? {
          live := live + [slots[i].product];
        }
        i := i + 1;
      }
      assert slots[..|slots|] == slots;
      reply := Reply(200, JsonProducts(live));
    }

    /** POST /produtos. A falsy field fails the gate; then every failing
        check is collected; only a clean body appends a record, whose id is
        the array's length plus one. */
    method Create(nome: Value, preco: Value, descricao: Value) returns (reply: Reply)
      requires Valid()
      modifies this
      ensures Valid()
      ensures !(Truthy(nome) && Truthy(preco) && Truthy(descricao)) ==>
                reply == Reply(400, PlainText(MissingFieldsText)) && slots == old(slots)
      ensures Truthy(nome) && Truthy(preco) && Truthy(descricao) &&
              CreateFieldErrors(nome, preco, descricao) != [] ==>
                reply == Reply(400, PlainText(ErrorText(Messages(CreateFieldErrors(nome, preco, descricao))))) &&
                slots == old(slots)
      ensures Truthy(nome) && Truthy(preco) && Truthy(descricao) &&
              CreateFieldErrors(nome, preco, descricao) == [] ==>
                var p := Product(|old(slots)| + 1, nome, Str(toFixed2(preco)), descricao);
                reply == Reply(201, JsonProduct(p)) && slots == old(slots) + [Live(p)]
    {
      if !Truthy(nome) || !Truthy(preco) || !Truthy(descricao) {
        reply := Reply(400, PlainText(MissingFieldsText));
        return;
      }
      var erro := CollectCreateErrors(nome, preco, descricao);
      if |erro| > 0 {
        reply := Reply(400, PlainText(ErrorText(Messages(erro))));
        return;
      }
      var produto := Product(|slots| + 1, nome, Str(toFixed2(preco)), descricao);
      slots := slots + [Live(produto)];
      reply := Reply(201, JsonProduct(produto));
    }

    /** PUT /produtos/:id. A nullish `nome` throws before anything else;
        failing checks answer 400; otherwise the matched slot is replaced by
        a record built from the request alone, and the answer is 200 even
        when nothing matched. */
    method Update(id: string, nome: Value, preco: Value, descricao: Value) returns (reply: Reply)
      requires Valid()
      modifies this
      ensures Valid() && |slots| == |old(slots)|
      ensures IsNullish(nome) ==> reply == ThrewTypeError && slots == old(slots)
      ensures !IsNullish(nome) && UpdateFieldErrors(nome, preco, descricao) != [] ==>
                reply == Reply(400, PlainText(ErrorText(Messages(UpdateFieldErrors(nome, preco, descricao))))) &&
                slots == old(slots)
      ensures !IsNullish(nome) && UpdateFieldErrors(nome, preco, descricao) == [] ==>
                reply == Reply(200, JsonString(UpdatedText(id))) &&
                slots == if Present(old(slots), ParseInt(id))
                         then old(slots)[ParseInt(id).value - 1 :=
                                Live(Product(ParseInt(id).value, nome, Str(toFixed2(preco)), descricao))]
                         else old(slots)
    {
      if IsNullish(nome) {
        reply := ThrewTypeError;
        return;
      }
      var erro := CollectUpdateErrors(nome, preco, descricao);
      if |erro| > 0 {
        reply := Reply(400, PlainText(ErrorText(Messages(erro))));
        return;
      }
      Overwrite(ParseInt(id), nome, preco, descricao);
      reply := Reply(200, JsonString(UpdatedText(id)));
    }

    /** The lookup and write of update: the first live slot with the id is
        replaced by a new record, with no merge of the old one. When nothing
        matched, the write to `produtos[-1]` creates a property that is no
        array index, so no slot and no length changes. */
    method Overwrite(pid: ParsedInt, nome: Value, preco: Value, descricao: Value)
      requires Valid()
      modifies this
      ensures Valid()
      ensures slots == if Present(old(slots), pid)
                       then old(slots)[pid.value - 1 := Live(Product(pid.value, nome, Str(toFixed2(preco)), descricao))]
                       else old(slots)
    {
      var index := FindIndex(pid);
      MatchIsPositional(slots, pid);
      assert index >= 0 <==> Present(slots, pid);
      if index >= 0 {
        assert index == pid.value - 1;
        slots := slots[index := Live(Product(pid.value, nome, Str(toFixed2(preco)), descricao))];
      }
    }

    /** DELETE /produtos/:id. An id with no live record answers 404;
        otherwise its slot becomes a hole and the array keeps its length. */
    method Delete(id: string) returns (reply: Reply)
      requires Valid()
      modifies this
      ensures Valid() && |slots| == |old(slots)|
      ensures Present(old(slots), ParseInt(id)) ==>
                slots == old(slots)[ParseInt(id).value - 1 := Hole] &&
                reply == Reply(200, PlainText(DeletedText))
      ensures !Present(old(slots), ParseInt(id)) ==>
                slots == old(slots) && reply == Reply(404, PlainText(NotFoundText(id)))
    {
      var pid := ParseInt(id);
      var index := FindIndex(pid);
      MatchIsPositional(slots, pid);
      assert index >= 0 <==> Present(slots, pid);
      if index == -1 {
        reply := Reply(404, PlainText(NotFoundText(id)));
        return;
      }
      slots := slots[index := Hole];
      reply := Reply(200, PlainText(DeletedText));
    }
  }

  lemma ParseIdOne()
    ensures ParseInt("1") == Int(1)
  {
    assert TrimStart("1") == "1";
    assert DigitPrefix("1", 10) == "1";
    assert DigitsValue("1", 10) == 1;
  }

  lemma LiveProductsAfterHole(p: Product)
    ensures LiveProducts([Hole, Live(p)]) == [p]
  {
    assert [Hole, Live(p)][..1] == [Hole];
    LiveProductsOfOne(Hole);
  }

  /** The seed store, then POST {nome: "mouse", preco: 50, descricao:
      "wireless"}, DELETE /produtos/1 twice, and GET /produtos: the mouse is
      created as record 2, the first delete succeeds, the second misses, and
      only the mouse is listed. */
  method SeedScenario(toFixed2: Value -> string) returns (created: Reply, first: Reply, second: Reply, listing: Reply)
    requires toFixed2(Number(50.0)) == "50.00"
    ensures var mouse := Product(2, Str("mouse"), Str("50.00"), Str("wireless"));
            created == Reply(201, JsonProduct(mouse)) &&
            first == Reply(200, PlainText(DeletedText)) &&
            second == Reply(404, PlainText(NotFoundText("1"))) &&
            listing == Reply(200, JsonProducts([mouse]))
  {
    var mouse := Product(2, Str("mouse"), Str("50.00"), Str("wireless"));
    var store := new ProductStore(toFixed2);
    assert CreateFieldErrors(Str("mouse"), Number(50.0), Str("wireless")) == [];
    created := store.Create(Str("mouse"), Number(50.0), Str("wireless"));
    assert store.slots == [Live(Seed), Live(mouse)];
    ParseIdOne();
    assert Present(store.slots, Int(1));
    first := store.Delete("1");
    assert store.slots == [Hole, Live(mouse)];
    assert !Present(store.slots, Int(1));
    second := store.Delete("1");
    listing := store.List();
    LiveProductsAfterHole(mouse);
  }
}

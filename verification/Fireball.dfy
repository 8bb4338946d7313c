/**
 The fireball's dish (rust/fireball/src/lib.rs): a cook adds one token per
 ingredient of a recipe, makes the dish once all are there, and the ingredients
 are then burned one by one before the dish can be made again.
 */
module Fireball {
  import opened Prelude
  import Merkle

  type Pubkey = seq<byte>

  datatype Error =
    | RecipeAlreadyCompleted
    | RecipeNotCompleted
    | InvalidAuthority
    | MismatchedRecipe
    | EditionZeroInvalid
    | MismatchedEditionMint
    | InvalidMint
    | InvalidProof
    | IncompleteRecipe
    | ArithmeticOverflow
    | AccountError // the runtime or the token program refuses: missing, occupied, short, wrong mint
    | Aborted // an index past the recipe's roots

  /** Recipes never change once created: the roots by the recipe's key. */
  type Recipes = map<Pubkey, seq<Merkle.Digest>>

  datatype Dish = Dish(authority: Pubkey, recipe: Pubkey, ingredientsAdded: u64, completed: bool)

  /** An ingredient store: the mint of the one token it holds, and the leaf that let it in. */
  datatype Store = Store(mint: Pubkey, leaf: Merkle.Digest)

  /** A printed edition offered in place of its master. */
  datatype Edition = Edition(mint: Pubkey, number: u64, master: Pubkey)

  /** The dish, its open stores by ingredient number, and how many tokens and dishes have passed through. */
  datatype Kitchen = Kitchen(
    dish: Dish,
    stores: map<u64, Store>,
    deposited: nat,
    returned: nat,
    burned: nat,
    made: nat
  )

  /** What the cook offers: the ingredient's mint, perhaps an edition of it, and the paying token account. */
  datatype Offer = Offer(
    mint: Pubkey, edition: Option<Edition>, fromMint: Pubkey, fromAmount: u64, proof: seq<Merkle.Digest>)

  datatype Instruction =
    | AddIngredient(payer: Pubkey, recipe: Pubkey, number: u64, offer: Offer)
    | RemoveIngredient(payer: Pubkey, number: u64, toMint: Pubkey)
    | MakeDish(payer: Pubkey, recipe: Pubkey)
    | ConsumeIngredient(recipe: Pubkey, number: u64, mint: Pubkey)

  // ---------------------------------------------------------------------------
  // The steps

  function StartDish(payer: Pubkey, recipe: Pubkey): Kitchen {
    Kitchen(Dish(payer, recipe, 0, false), map[], 0, 0, 0, 0)
  }

  function IncompleteChecks(dish: Dish, payer: Pubkey): Guard<Error> {
    if dish.completed then Fail(RecipeAlreadyCompleted) else Need(dish.authority == payer, InvalidAuthority)
  }

  /** The mint that is moved into the store and the flag of the leaf it must prove. */
  function OfferedToken(offer: Offer): Result<Offered, Error> {
    match offer.edition
    case None => Ok(Offered(offer.mint, 0))
    case Some(edition) =>
      :- Need(edition.number != 0, EditionZeroInvalid);
      :- Need(edition.master == offer.mint, MismatchedEditionMint);
      Ok(Offered(edition.mint, 2))
  }

  datatype Offered = Offered(mint: Pubkey, flag: byte)

  function Accept(le: Merkle.Order, recipes: Recipes, k: Kitchen, payer: Pubkey, recipe: Pubkey, number: u64,
                  offer: Offer): Result<Store, Error>
  {
    if recipe !in recipes then Err(AccountError)
    else
      :- IncompleteChecks(k.dish, payer);
      :- Need(k.dish.recipe == recipe, MismatchedRecipe);
      var token :- OfferedToken(offer);
      :- Need(offer.fromMint == token.mint, InvalidMint);
      :- Need(number < |recipes[recipe]|, Aborted);
      var leaf := Merkle.LeafHash(token.flag, offer.mint);
      :- Need(Merkle.Proves(le, offer.proof, recipes[recipe][number], leaf), InvalidProof);
      :- Need(number !in k.stores, AccountError);
      :- Need(offer.fromAmount >= 1, AccountError);
      Ok(Store(token.mint, leaf))
  }

  function Add(le: Merkle.Order, recipes: Recipes, k: Kitchen, payer: Pubkey, recipe: Pubkey, number: u64,
               offer: Offer): Result<Kitchen, Error>
  {
    var store :- Accept(le, recipes, k, payer, recipe, number, offer);
    :- Need(k.dish.ingredientsAdded + 1 <= U64_MAX, ArithmeticOverflow);
    Ok(k.(dish := k.dish.(ingredientsAdded := k.dish.ingredientsAdded + 1),
          stores := k.stores[number := store],
          deposited := k.deposited + 1))
  }

  function Remove(k: Kitchen, payer: Pubkey, number: u64, toMint: Pubkey): Result<Kitchen, Error> {
    var incomplete := IncompleteChecks(k.dish, payer);
    :- incomplete;
    :- Need(number in k.stores, AccountError);
    :- Need(k.stores[number].mint == toMint, AccountError);
    :- Need(k.dish.ingredientsAdded >= 1, ArithmeticOverflow);
    Ok(k.(dish := k.dish.(ingredientsAdded := k.dish.ingredientsAdded - 1),
          stores := k.stores - {number},
          returned := k.returned + 1))
  }

  function Make(recipes: Recipes, k: Kitchen, payer: Pubkey, recipe: Pubkey): Result<Kitchen, Error> {
    if recipe !in recipes then Err(AccountError)
    else
      :- IncompleteChecks(k.dish, payer);
      :- Need(k.dish.recipe == recipe, MismatchedRecipe);
      :- Need(k.dish.ingredientsAdded == |recipes[recipe]|, IncompleteRecipe);
      Ok(k.(dish := k.dish.(completed := true), made := k.made + 1))
  }

  function Consume(recipes: Recipes, k: Kitchen, recipe: Pubkey, number: u64, mint: Pubkey): Result<Kitchen, Error> {
    if recipe !in recipes then Err(AccountError)
    else
      :- Need(k.dish.completed, RecipeNotCompleted);
      :- Need(k.dish.recipe == recipe, MismatchedRecipe);
      :- Need(number in k.stores, AccountError);
      :- Need(k.stores[number].mint == mint, AccountError);
      :- Need(k.dish.ingredientsAdded >= 1, ArithmeticOverflow);
      var left := k.dish.ingredientsAdded - 1;
      Ok(k.(dish := k.dish.(ingredientsAdded := left, completed := left != 0),
            stores := k.stores - {number},
            burned := k.burned + 1))
  }

  function Apply(le: Merkle.Order, recipes: Recipes, k: Kitchen, i: Instruction): Result<Kitchen, Error> {
    match i
    case AddIngredient(payer, recipe, number, offer) => Add(le, recipes, k, payer, recipe, number, offer)
    case RemoveIngredient(payer, number, toMint) => Remove(k, payer, number, toMint)
    case MakeDish(payer, recipe) => Make(recipes, k, payer, recipe)
    case ConsumeIngredient(recipe, number, mint) => Consume(recipes, k, recipe, number, mint)
  }

  /** A failed instruction leaves everything as it was. */
  function Step(le: Merkle.Order, recipes: Recipes, k: Kitchen, i: Instruction): Kitchen {
    var r := Apply(le, recipes, k, i);
    if r.Ok? then r.value else k
  }

  function Run(le: Merkle.Order, recipes: Recipes, k: Kitchen, run: seq<Instruction>): Kitchen {
    if run == [] then k else Step(le, recipes, Run(le, recipes, k, run[..|run| - 1]), run[|run| - 1])
  }

  // ---------------------------------------------------------------------------
  // What every run keeps

  /** Every open store's leaf was proved against the root of its own number. */
  ghost predicate EachProved(le: Merkle.Order, roots: seq<Merkle.Digest>, stores: map<u64, Store>) {
    forall n :: n in stores ==>
      && n < |roots|
      && stores[n].leaf.LeafHash?
      && Merkle.Provable(le, roots[n], stores[n].leaf)
      && (stores[n].leaf.flag == 2 || stores[n].leaf == Merkle.LeafHash(0, stores[n].mint))
  }

  /** Tokens put in are out again, burned, or in an open store, and stores are counted. */
  predicate Counted(k: Kitchen) {
    && k.dish.ingredientsAdded == |k.stores|
    && k.deposited == k.returned + k.burned + |k.stores|
  }

  /** What a completed dish still holds has yet to be burned. */
  function Unburned(k: Kitchen): nat {
    if k.dish.completed then k.dish.ingredientsAdded else 0
  }

  /** Each dish made costs one burned token per ingredient. */
  predicate Accounted(roots: seq<Merkle.Digest>, k: Kitchen) {
    k.burned + Unburned(k) == |roots| * k.made
  }

  ghost predicate Inv(le: Merkle.Order, recipes: Recipes, k: Kitchen) {
    && k.dish.recipe in recipes
    && EachProved(le, recipes[k.dish.recipe], k.stores)
    && Counted(k)
    && Accounted(recipes[k.dish.recipe], k)
  }

  lemma StartKeepsInv(le: Merkle.Order, recipes: Recipes, payer: Pubkey, recipe: Pubkey)
    requires recipe in recipes
    ensures Inv(le, recipes, StartDish(payer, recipe))
  {
  }

  lemma AddKeepsInv(
    le: Merkle.Order, recipes: Recipes, k: Kitchen, payer: Pubkey, recipe: Pubkey, number: u64, offer: Offer
  )
    requires Inv(le, recipes, k) && Add(le, recipes, k, payer, recipe, number, offer).Ok?
    ensures Inv(le, recipes, Add(le, recipes, k, payer, recipe, number, offer).value)
  {
    var roots := recipes[recipe];
    var store := Accept(le, recipes, k, payer, recipe, number, offer).value;
    assert Merkle.Proves(le, offer.proof, roots[number], store.leaf);
    assert Merkle.Provable(le, roots[number], store.leaf);
  }

  lemma StoreClosed(stores: map<u64, Store>, number: u64)
    requires number in stores
    ensures |stores - {number}| == |stores| - 1
  {
    assert (stores - {number}).Keys == stores.Keys - {number};
  }

  lemma RemoveKeepsInv(le: Merkle.Order, recipes: Recipes, k: Kitchen, payer: Pubkey, number: u64, toMint: Pubkey)
    requires Inv(le, recipes, k) && Remove(k, payer, number, toMint).Ok?
    ensures Inv(le, recipes, Remove(k, payer, number, toMint).value)
  {
    StoreClosed(k.stores, number);
  }

  lemma OneMore(n: nat, made: nat)
    ensures n * (made + 1) == n * made + n
  {
  }

  lemma MakeKeepsInv(le: Merkle.Order, recipes: Recipes, k: Kitchen, payer: Pubkey, recipe: Pubkey)
    requires Inv(le, recipes, k) && Make(recipes, k, payer, recipe).Ok?
    ensures Inv(le, recipes, Make(recipes, k, payer, recipe).value)
  {
    OneMore(|recipes[recipe]|, k.made);
  }

  lemma ConsumeKeepsInv(le: Merkle.Order, recipes: Recipes, k: Kitchen, recipe: Pubkey, number: u64, mint: Pubkey)
    requires Inv(le, recipes, k) && Consume(recipes, k, recipe, number, mint).Ok?
    ensures Inv(le, recipes, Consume(recipes, k, recipe, number, mint).value)
  {
    StoreClosed(k.stores, number);
  }

  lemma StepKeepsInv(le: Merkle.Order, recipes: Recipes, k: Kitchen, i: Instruction)
    requires Inv(le, recipes, k)
    ensures Inv(le, recipes, Step(le, recipes, k, i))
    ensures Step(le, recipes, k, i).dish.recipe == k.dish.recipe
  {
    if Apply(le, recipes, k, i).Ok? {
      match i {
        case AddIngredient(payer, recipe, number, offer) => AddKeepsInv(le, recipes, k, payer, recipe, number, offer);
        case RemoveIngredient(payer, number, toMint) => RemoveKeepsInv(le, recipes, k, payer, number, toMint);
        case MakeDish(payer, recipe) => MakeKeepsInv(le, recipes, k, payer, recipe);
        case ConsumeIngredient(recipe, number, mint) => ConsumeKeepsInv(le, recipes, k, recipe, number, mint);
      }
    }
  }

  /**
   After any run: open stores are counted by ingredients_added, each was proved
   against its own root, and burned tokens are exactly those of the dishes made.
   */
  lemma {:induction false} RunKeepsInv(
    le: Merkle.Order, recipes: Recipes, payer: Pubkey, recipe: Pubkey, run: seq<Instruction>
  )
    requires recipe in recipes
    ensures Inv(le, recipes, Run(le, recipes, StartDish(payer, recipe), run))
    ensures Run(le, recipes, StartDish(payer, recipe), run).dish.recipe == recipe
  {
    var start := StartDish(payer, recipe);
    if run == [] {
      StartKeepsInv(le, recipes, payer, recipe);
    } else {
      RunKeepsInv(le, recipes, payer, recipe, run[..|run| - 1]);
      StepKeepsInv(le, recipes, Run(le, recipes, start, run[..|run| - 1]), run[|run| - 1]);
    }
  }

  // ---------------------------------------------------------------------------
  // Making a dish

  /** Every ingredient number has an open store. */
  predicate AllPresent(roots: seq<Merkle.Digest>, stores: map<u64, Store>) {
    forall n: u64 :: n < |roots| ==> n in stores
  }

  ghost function Numbers(n: nat): (numbers: set<u64>)
    requires n <= U64_MAX
    ensures forall i: u64 :: i in numbers <==> i < n
    ensures |numbers| == n
  {
    if n == 0 then {}
    else
      var last: u64 := n - 1;
      Numbers(n - 1) + {last}
  }

  lemma SubsetOfSameSize(a: set<u64>, b: set<u64>)
    requires a <= b
    ensures |a| == |b| <==> a == b
  {
    assert b == a + (b - a);
  }

  /** Counting suffices: as many stores as roots means that no ingredient is missing. */
  lemma CountedIsPresent(le: Merkle.Order, roots: seq<Merkle.Digest>, stores: map<u64, Store>)
    requires EachProved(le, roots, stores) && |roots| <= U64_MAX
    ensures |stores| == |roots| <==> AllPresent(roots, stores)
  {
    assert stores.Keys <= Numbers(|roots|);
    SubsetOfSameSize(stores.Keys, Numbers(|roots|));
    assert stores.Keys == Numbers(|roots|) <==> AllPresent(roots, stores);
  }

  /** In a reachable kitchen the dish is made exactly when its cook asks and every ingredient is present. */
  lemma MakeSucceedsIff(le: Merkle.Order, recipes: Recipes, k: Kitchen, payer: Pubkey, recipe: Pubkey)
    requires Inv(le, recipes, k)
    requires forall key :: key in recipes ==> |recipes[key]| <= U64_MAX
    ensures Make(recipes, k, payer, recipe).Ok? <==>
            && !k.dish.completed
            && payer == k.dish.authority
            && recipe == k.dish.recipe
            && AllPresent(recipes[k.dish.recipe], k.stores)
    ensures Make(recipes, k, payer, recipe).Ok? ==>
            Make(recipes, k, payer, recipe).value == k.(dish := k.dish.(completed := true), made := k.made + 1)
  {
    CountedIsPresent(le, recipes[k.dish.recipe], k.stores);
  }

  /** The token in a store belongs: its mint, or the master it was printed from, is a leaf of the tree. */
  predicate Belongs(t: Merkle.Tree, store: Store) {
    || Merkle.HasLeaf(t, 0, store.mint)
    || (store.leaf.LeafHash? && store.leaf.flag == 2 && Merkle.HasLeaf(t, 2, store.leaf.content))
  }

  /**
   After any run a dish that can be made holds, for every ingredient, a token
   that belongs to the tree the recipe's author hashed for that ingredient.
   */
  lemma DishHoldsItsIngredients(
    le: Merkle.Order, recipes: Recipes, trees: seq<Merkle.Tree>, payer: Pubkey, recipe: Pubkey,
    run: seq<Instruction>, cook: Pubkey, n: u64
  )
    requires Merkle.IsOrder(le)
    requires forall key :: key in recipes ==> |recipes[key]| <= U64_MAX
    requires recipe in recipes && |trees| == |recipes[recipe]| && n < |trees|
    requires recipes[recipe][n] == Merkle.Root(le, trees[n])
    requires Make(recipes, Run(le, recipes, StartDish(payer, recipe), run), cook, recipe).Ok?
    ensures var k := Run(le, recipes, StartDish(payer, recipe), run);
      n in k.stores && Belongs(trees[n], k.stores[n])
  {
    RunKeepsInv(le, recipes, payer, recipe, run);
    var k := Run(le, recipes, StartDish(payer, recipe), run);
    MakeSucceedsIff(le, recipes, k, cook, recipe);
    var leaf := k.stores[n].leaf;
    Merkle.ProvableIffLeaf(le, trees[n], leaf.flag, leaf.content);
  }

  // ---------------------------------------------------------------------------
  // Stores

  /**
   A store that this offer may open: it holds the ingredient itself, or an
   edition, not the zeroth, of the ingredient as its master, and the leaf that
   was proved says which.
   */
  predicate OpenedBy(store: Store, offer: Offer) {
    && offer.fromMint == store.mint && offer.fromAmount >= 1
    && match offer.edition
       case None => store == Store(offer.mint, Merkle.LeafHash(0, offer.mint))
       case Some(edition) =>
         && edition.number != 0 && edition.master == offer.mint
         && store == Store(edition.mint, Merkle.LeafHash(2, offer.mint))
  }

  /** An ingredient is added exactly when its cook offers a token that opens its empty store with a proof. */
  lemma AddSucceedsIff(le: Merkle.Order, recipes: Recipes, k: Kitchen, payer: Pubkey, recipe: Pubkey, number: u64,
                       offer: Offer, store: Store)
    requires Inv(le, recipes, k)
    requires forall key :: key in recipes ==> |recipes[key]| <= U64_MAX
    requires store.leaf == Merkle.LeafHash(if offer.edition.None? then 0 else 2, offer.mint)
    requires store.mint == if offer.edition.None? then offer.mint else offer.edition.value.mint
    ensures Add(le, recipes, k, payer, recipe, number, offer).Ok? <==>
            && !k.dish.completed && payer == k.dish.authority && recipe == k.dish.recipe
            && number < |recipes[recipe]| && number !in k.stores
            && OpenedBy(store, offer)
            && Merkle.Proves(le, offer.proof, recipes[recipe][number], store.leaf)
    ensures Add(le, recipes, k, payer, recipe, number, offer).Ok? ==>
            var r := Add(le, recipes, k, payer, recipe, number, offer).value;
            && r.stores == k.stores[number := store]
            && r == k.(dish := k.dish.(ingredientsAdded := k.dish.ingredientsAdded + 1), stores := r.stores,
                       deposited := k.deposited + 1)
  {
    if recipe == k.dish.recipe && number < |recipes[recipe]| && number !in k.stores {
      RoomForStore(le, recipes[recipe], k.stores, number);
    }
  }

  lemma RoomForStore(le: Merkle.Order, roots: seq<Merkle.Digest>, stores: map<u64, Store>, number: u64)
    requires EachProved(le, roots, stores) && |roots| <= U64_MAX && number < |roots| && number !in stores
    ensures |stores| < U64_MAX
  {
    assert stores.Keys <= Numbers(|roots|) - {number};
    SubsetSmaller(stores.Keys, Numbers(|roots|) - {number});
  }

  lemma SubsetSmaller(a: set<u64>, b: set<u64>)
    requires a <= b
    ensures |a| <= |b|
  {
    assert b == a + (b - a);
  }

  /** Before completion its cook takes any stored token back, into an account of its mint. */
  lemma RemoveSucceedsIff(le: Merkle.Order, recipes: Recipes, k: Kitchen, payer: Pubkey, number: u64, toMint: Pubkey)
    requires Inv(le, recipes, k)
    ensures Remove(k, payer, number, toMint).Ok? <==>
            && !k.dish.completed && payer == k.dish.authority
            && number in k.stores && toMint == k.stores[number].mint
    ensures Remove(k, payer, number, toMint).Ok? ==>
            Remove(k, payer, number, toMint).value ==
            k.(dish := k.dish.(ingredientsAdded := k.dish.ingredientsAdded - 1), stores := k.stores - {number},
               returned := k.returned + 1)
  {
    if number in k.stores {
      StoreClosed(k.stores, number);
    }
  }

  /** The instruction offers what is in the store. */
  predicate Brought(i: Instruction, number: u64, store: Store) {
    i.AddIngredient? && i.number == number && OpenedBy(store, i.offer)
  }

  lemma StepBrings(le: Merkle.Order, recipes: Recipes, k: Kitchen, i: Instruction, n: u64)
    requires n in Step(le, recipes, k, i).stores
    ensures var store := Step(le, recipes, k, i).stores[n];
      (n in k.stores && k.stores[n] == store) || Brought(i, n, store)
  {
  }

  /** After any run whatever is stored was brought as the ingredient itself or as an edition of it. */
  lemma {:induction false} StoredWasBrought(
    le: Merkle.Order, recipes: Recipes, payer: Pubkey, recipe: Pubkey, run: seq<Instruction>, n: u64
  ) returns (j: nat)
    requires n in Run(le, recipes, StartDish(payer, recipe), run).stores
    ensures j < |run| && Brought(run[j], n, Run(le, recipes, StartDish(payer, recipe), run).stores[n])
  {
    j := |run| - 1;
    var before := Run(le, recipes, StartDish(payer, recipe), run[..j]);
    StepBrings(le, recipes, before, run[j], n);
    if !Brought(run[j], n, Run(le, recipes, StartDish(payer, recipe), run).stores[n]) {
      j := StoredWasBrought(le, recipes, payer, recipe, run[..j], n);
    }
  }

  /** While a completed dish is being consumed nothing can be added, taken back or made. */
  lemma CompletedIsLocked(le: Merkle.Order, recipes: Recipes, k: Kitchen, i: Instruction)
    requires Inv(le, recipes, k) && k.dish.completed
    ensures !i.ConsumeIngredient? ==> Step(le, recipes, k, i) == k
    ensures Step(le, recipes, k, i).made == k.made
    ensures k.stores != map[] ==> (Step(le, recipes, k, i).dish.completed <==> Step(le, recipes, k, i).stores != map[])
  {
    StepKeepsInv(le, recipes, k, i);
  }

  /** The dish of a recipe without ingredients, once made, stays completed: nothing is left to consume. */
  lemma EmptyRecipeStaysCompleted(le: Merkle.Order, recipes: Recipes, k: Kitchen, i: Instruction)
    requires Inv(le, recipes, k) && recipes[k.dish.recipe] == [] && k.dish.completed
    ensures Step(le, recipes, k, i) == k
  {
  }

  /** A present ingredient of a completed dish can always be consumed, by anyone. */
  lemma ConsumeSucceedsIff(le: Merkle.Order, recipes: Recipes, k: Kitchen, recipe: Pubkey, number: u64, mint: Pubkey)
    requires Inv(le, recipes, k)
    ensures Consume(recipes, k, recipe, number, mint).Ok? <==>
            && k.dish.completed
            && recipe == k.dish.recipe
            && number in k.stores
            && mint == k.stores[number].mint
    ensures Consume(recipes, k, recipe, number, mint).Ok? ==>
            var r := Consume(recipes, k, recipe, number, mint).value;
            && r.stores == k.stores - {number}
            && (r.dish.completed <==> r.stores != map[])
            && r == k.(dish := k.dish.(ingredientsAdded := |r.stores|, completed := r.dish.completed),
                       stores := r.stores, burned := k.burned + 1)
  {
    if number in k.stores {
      StoreClosed(k.stores, number);
    }
  }

  // ---------------------------------------------------------------------------
  // The handlers

  class DishAccount {
    const authority: Pubkey
    const recipe: Pubkey
    var ingredientsAdded: u64
    var completed: bool
    var stores: map<u64, Store>
    var deposited: nat
    var returned: nat
    var burned: nat
    var made: nat

    ghost function View(): Kitchen
      reads this
    {
      Kitchen(Dish(authority, recipe, ingredientsAdded, completed), stores, deposited, returned, burned, made)
    }

    constructor (payer: Pubkey, recipe: Pubkey)
      ensures View() == StartDish(payer, recipe)
    {
      authority := payer;
      this.recipe := recipe;
      ingredientsAdded := 0;
      completed := false;
      stores := map[];
      deposited, returned, burned, made := 0, 0, 0, 0;
    }

    method AddIngredient(le: Merkle.Order, recipes: Recipes, payer: Pubkey, recipeKey: Pubkey, number: u64,
                         offer: Offer)
      returns (r: Result<(), Error>)
      modifies this
      ensures match Add(le, recipes, old(View()), payer, recipeKey, number, offer)
              case Ok(k) => r == Ok(()) && View() == k
              case Err(e) => r == Err(e) && View() == old(View())
    {
      if recipeKey !in recipes {
        return Err(AccountError);
      }
      if completed {
        return Err(RecipeAlreadyCompleted);
      }
      if authority != payer {
        return Err(InvalidAuthority);
      }
      if recipe != recipeKey {
        return Err(MismatchedRecipe);
      }
      var transferMint, flag := offer.mint, 0;
      if offer.edition.Some? {
        if offer.edition.value.number == 0 {
          return Err(EditionZeroInvalid);
        }
        if offer.edition.value.master != offer.mint {
          return Err(MismatchedEditionMint);
        }
        transferMint, flag := offer.edition.value.mint, 2;
      }
      if offer.fromMint != transferMint {
        return Err(InvalidMint);
      }
      if number >= |recipes[recipeKey]| {
        return Err(Aborted);
      }
      var node := Merkle.LeafHash(flag, offer.mint);
      var valid := Merkle.Verify(le, offer.proof, recipes[recipeKey][number], node);
      if !valid {
        return Err(InvalidProof);
      }
      if number in stores || offer.fromAmount < 1 {
        return Err(AccountError);
      }
      if ingredientsAdded == U64_MAX {
        return Err(ArithmeticOverflow);
      }
      stores := stores[number := Store(transferMint, node)];
      deposited := deposited + 1;
      ingredientsAdded := ingredientsAdded + 1;
      r := Ok(());
    }

    method RemoveIngredient(payer: Pubkey, number: u64, toMint: Pubkey) returns (r: Result<(), Error>)
      modifies this
      ensures match Remove(old(View()), payer, number, toMint)
              case Ok(k) => r == Ok(()) && View() == k
              case Err(e) => r == Err(e) && View() == old(View())
    {
      if completed {
        return Err(RecipeAlreadyCompleted);
      }
      if authority != payer {
        return Err(InvalidAuthority);
      }
      if number !in stores || stores[number].mint != toMint {
        return Err(AccountError);
      }
      if ingredientsAdded == 0 {
        return Err(ArithmeticOverflow);
      }
      stores := stores - {number};
      returned := returned + 1;
      ingredientsAdded := ingredientsAdded - 1;
      r := Ok(());
    }

    method MakeDish(recipes: Recipes, payer: Pubkey, recipeKey: Pubkey) returns (r: Result<(), Error>)
      modifies this`completed, this`made
      ensures match Make(recipes, old(View()), payer, recipeKey)
              case Ok(k) => r == Ok(()) && View() == k
              case Err(e) => r == Err(e) && View() == old(View())
    {
      if recipeKey !in recipes {
        return Err(AccountError);
      }
      if completed {
        return Err(RecipeAlreadyCompleted);
      }
      if authority != payer {
        return Err(InvalidAuthority);
      }
      if recipe != recipeKey {
        return Err(MismatchedRecipe);
      }
      if ingredientsAdded != |recipes[recipeKey]| {
        return Err(IncompleteRecipe);
      }
      made := made + 1;
      completed := true;
      r := Ok(());
    }

    method ConsumeIngredient(recipes: Recipes, recipeKey: Pubkey, number: u64, mint: Pubkey)
      returns (r: Result<(), Error>)
      modifies this
      ensures match Consume(recipes, old(View()), recipeKey, number, mint)
              case Ok(k) => r == Ok(()) && View() == k
              case Err(e) => r == Err(e) && View() == old(View())
    {
      if recipeKey !in recipes {
        return Err(AccountError);
      }
      if !completed {
        return Err(RecipeNotCompleted);
      }
      if recipe != recipeKey {
        return Err(MismatchedRecipe);
      }
      if number !in stores || stores[number].mint != mint {
        return Err(AccountError);
      }
      if ingredientsAdded == 0 {
        return Err(ArithmeticOverflow);
      }
      stores := stores - {number};
      burned := burned + 1;
      ingredientsAdded := ingredientsAdded - 1;
      if ingredientsAdded == 0 {
        completed := false;
      }
      r := Ok(());
    }
  }
}
